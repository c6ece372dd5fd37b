/**
 * The part of Blender's material node tree the importer touches: typed
 * nodes with a location, the input defaults the importer sets and a
 * selection flag, and links from one node's output socket to another
 * node's input socket. Nodes are numbered in creation order.
 *
 * `Graph` is the tree as a value; `NodeTree` is the mutable tree the
 * importer drives through `nodes.new`, `links.new`, `default_value` and
 * `node.select`, each method proved to act on `Graph` as stated.
 */
module NodeGraph {
  import opened Keywords

  datatype Location = Location(x: int, y: int)

  /** A socket picked by name (`inputs["Color"]`) or by position (`inputs[0]`). */
  datatype Socket = Named(name: string) | At(index: nat)

  /** A `default_value`: one number or a tuple of numbers. */
  datatype Param = Scalar(x: real) | Vector(v: seq<real>)

  /** The node types the importer creates; a math node is always set to
      MULTIPLY and an image node carries its image. */
  datatype NodeKind =
    | TexCoordNode
    | MappingNode
    | RerouteNode
    | PrincipledBsdfNode
    | OutputMaterialNode
    | TexImageNode(image: Image)
    | MultiplyNode
    | BumpNode
    | NormalMapNode

  /** A node: its type, location, the input defaults set on it and whether
      it is selected. */
  datatype Node = Node(kind: NodeKind, location: Location, inputs: map<Socket, Param>, selected: bool)

  /** A socket of a given node. */
  datatype Terminal = Terminal(node: nat, socket: Socket)

  /** A link from an output socket to an input socket. */
  datatype Link = Link(from: Terminal, to: Terminal)

  datatype Graph = Graph(nodes: seq<Node>, links: seq<Link>)

  /** `r` is `g` with nodes and links only added after the existing ones. */
  predicate Extends(g: Graph, r: Graph)
  {
    g.nodes <= r.nodes && g.links <= r.links
  }

  /** Every link joins two existing nodes. */
  predicate Closed(g: Graph)
  {
    forall l :: l in g.links ==> l.from.node < |g.nodes| && l.to.node < |g.nodes|
  }

  /** `nodes.new(kind)` followed by setting its location and input defaults:
      a new, selected node at the end. */
  function AddNode(g: Graph, kind: NodeKind, location: Location, inputs: map<Socket, Param>): Graph
  {
    Graph(g.nodes + [Node(kind, location, inputs, true)], g.links)
  }

  /** `links.new(from, to)`. */
  function AddLink(g: Graph, from: Terminal, to: Terminal): Graph
  {
    Graph(g.nodes, g.links + [Link(from, to)])
  }

  /** Every node with its selection cleared, nothing else changed. */
  function Deselected(nodes: seq<Node>): (r: seq<Node>)
    ensures |r| == |nodes|
    ensures forall i :: 0 <= i < |r| ==> r[i] == nodes[i].(selected := false)
  {
    seq(|nodes|, i requires 0 <= i < |nodes| => nodes[i].(selected := false))
  }

  /** The mutable node tree of a material. */
  class NodeTree {
    var nodes: seq<Node>
    var links: seq<Link>

    /** The tree once the default nodes are removed: empty. */
    constructor ()
      ensures nodes == [] && links == []
    {
      nodes := [];
      links := [];
    }

    function Snapshot(): Graph
      reads this
    {
      Graph(nodes, links)
    }

    /** `nodes.new(kind)` with `location` set: the new node's number. A new
        node starts selected with no input defaults set. */
    method NewNode(kind: NodeKind, location: Location) returns (n: nat)
      modifies this
      ensures n == |old(nodes)|
      ensures Snapshot() == AddNode(old(Snapshot()), kind, location, map[])
    {
      n := |nodes|;
      nodes := nodes + [Node(kind, location, map[], true)];
    }

    /** `node.inputs[socket].default_value = p`. */
    method SetDefault(n: nat, socket: Socket, p: Param)
      requires n < |nodes|
      modifies this
      ensures nodes == old(nodes)[n := old(nodes)[n].(inputs := old(nodes)[n].inputs[socket := p])]
      ensures links == old(links)
    {
      nodes := nodes[n := nodes[n].(inputs := nodes[n].inputs[socket := p])];
    }

    /** `links.new(from, to)`. */
    method NewLink(from: Terminal, to: Terminal)
      modifies this
      ensures Snapshot() == AddLink(old(Snapshot()), from, to)
    {
      links := links + [Link(from, to)];
    }

    /** `deselect_all`: clear every node's selection, one node at a time. */
    method DeselectAll()
      modifies this
      ensures nodes == Deselected(old(nodes)) && links == old(links)
      ensures forall i :: 0 <= i < |nodes| ==> !nodes[i].selected
    {
      var i := 0;
      while i < |nodes|
        invariant 0 <= i <= |nodes| == |old(nodes)|
        invariant links == old(links)
        invariant forall j :: 0 <= j < i ==> nodes[j] == old(nodes)[j].(selected := false)
        invariant forall j :: i <= j < |nodes| ==> nodes[j] == old(nodes)[j]
      {
        nodes := nodes[i := nodes[i].(selected := false)];
        i := i + 1;
      }
    }
  }

  /** `material.blend_method`; a new material is opaque. */
  datatype BlendMethod = Opaque | Blend

  /** A material: its name, its node tree and its blend mode. */
  class Material {
    const name: string
    const tree: NodeTree
    var blendMethod: BlendMethod

    /** `bpy.data.materials.new(name)` with `use_nodes` on and the default
        nodes cleared out. */
    constructor (name: string)
      ensures this.name == name && blendMethod == Opaque
      ensures fresh(tree) && tree.nodes == [] && tree.links == []
    {
      this.name := name;
      tree := new NodeTree();
      blendMethod := Opaque;
    }
  }
}
