/**
 * The container's working graph (include/pdn_container.h): the retained
 * netlist lines, the four element arenas and the supply voltage. Links
 * between elements are indices into the arenas.
 */
module Graph {
  import opened Types
  import opened Resistors
  import opened CurrentSources
  import opened VoltageSources
  import opened Nodes

  datatype PdnState = PdnState(
    file: seq<string>,
    nodes: seq<Node>,
    resistors: seq<Resistor>,
    currentSources: seq<CurrentSource>,
    voltageSources: seq<VoltageSource>,
    supply: real)

  /** A node's lists are parallel where they must be and point into arenas of the given sizes. */
  predicate NodeLinksBelow(n: Node, nodeCount: nat, resistorCount: nat, csCount: nat, vsCount: nat)
  {
    |n.neighborNodes| == |n.resistors| &&
    Below(n.neighborNodes, nodeCount) && Below(n.resistors, resistorCount) &&
    Below(n.currentSources, csCount) && Below(n.voltageSources, vsCount)
  }

  /** A source's link is set and points into a node arena of the given size. */
  predicate Attached(link: Option<nat>, nodeCount: nat)
  {
    link.Some? && link.value < nodeCount
  }

  /** Every index stored anywhere in the graph is in range, and every source has a node. */
  predicate WellFormed(p: PdnState)
  {
    (forall i :: 0 <= i < |p.nodes| ==>
      NodeLinksBelow(p.nodes[i], |p.nodes|, |p.resistors|, |p.currentSources|, |p.voltageSources|)) &&
    (forall j :: 0 <= j < |p.resistors| ==> Below(p.resistors[j].connectedNodes, |p.nodes|)) &&
    (forall j :: 0 <= j < |p.currentSources| ==> Attached(p.currentSources[j].connectedNode, |p.nodes|)) &&
    (forall j :: 0 <= j < |p.voltageSources| ==> Attached(p.voltageSources[j].connectedNode, |p.nodes|))
  }

  /**
   * Resistor k of node i joins node i and neighbour k of node i: this is
   * what keeps `neighborNodes` and the resistor list index-parallel.
   */
  predicate EdgesConsistent(p: PdnState)
    requires WellFormed(p)
  {
    forall i, k :: 0 <= i < |p.nodes| && 0 <= k < |p.nodes[i].resistors| ==>
      var ends := p.resistors[p.nodes[i].resistors[k]].connectedNodes;
      ends == [i, p.nodes[i].neighborNodes[k]] || ends == [p.nodes[i].neighborNodes[k], i]
  }

  /** Nodes that keep their links keep every index in range and every edge consistent. */
  lemma SameLinksKeepValid(p: PdnState, nodes: seq<Node>)
    requires WellFormed(p) && EdgesConsistent(p) && SameLinks(p.nodes, nodes)
    ensures WellFormed(p.(nodes := nodes)) && EdgesConsistent(p.(nodes := nodes))
  {
    forall i | 0 <= i < |nodes|
      ensures NodeLinksBelow(nodes[i], |nodes|, |p.resistors|, |p.currentSources|, |p.voltageSources|)
    {
      assert NodeLinksBelow(p.nodes[i], |p.nodes|, |p.resistors|, |p.currentSources|, |p.voltageSources|);
    }
  }

  /** No two nodes share a name. */
  predicate DistinctNodeNames(nodes: seq<Node>)
  {
    forall i, j :: 0 <= i < j < |nodes| ==> nodes[i].name != nodes[j].name
  }
}
