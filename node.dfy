/**
 * Node records (include/node.h, src/node.cpp). A node keeps index-parallel
 * lists of its resistors and of the neighbour across each of them, plus
 * the current and voltage sources attached to it; every list holds indices
 * into the container's arenas.
 */
module Nodes {
  import opened Types
  import opened Resistors
  import opened CurrentSources
  import opened VoltageSources

  datatype Node = Node(
    isVoltageNode: bool,
    ableToConnectVoltageSource: bool,
    ableToConnectCurrentSource: bool,
    fakedByCurrentSource: bool,
    realValue: real,
    value: real,
    name: string,
    neighborNodes: seq<nat>,
    sumOfCurrent: real,
    inverseSumOfResistance: real,
    layer: U8, x: U32, y: U32,
    resistors: seq<nat>,
    currentSources: seq<nat>,
    voltageSources: seq<nat>)

  /** `getCoordinates`: the stored layer widened back to a 32-bit slot. */
  function GetCoordinates(n: Node): NodeCoords
  {
    NodeCoords(n.layer, n.x, n.y)
  }

  /** The constructor: coordinates (layer cast to `uint8_t`) and name; all else zero or empty. */
  function NewNode(at: NodeCoords, name: string): (n: Node)
    ensures GetCoordinates(n) == NodeCoords(at.layer % 0x100, at.x, at.y)
    ensures n.name == name
    ensures !n.isVoltageNode && !n.ableToConnectVoltageSource
    ensures !n.ableToConnectCurrentSource && !n.fakedByCurrentSource
    ensures n.resistors == [] && n.neighborNodes == []
    ensures n.currentSources == [] && n.voltageSources == []
    ensures n.value == 0.0 && n.realValue == 0.0
    ensures n.sumOfCurrent == 0.0 && n.inverseSumOfResistance == 0.0
  {
    Node(false, false, false, false, 0.0, 0.0, name, [], 0.0, 0.0,
         Truncate8(at.layer), at.x, at.y, [], [], [])
  }

  /** `1.0 / v`, with the division by a zero resistance taken as 0. */
  function Reciprocal(v: real): real
  {
    if v == 0.0 then 0.0 else 1.0 / v
  }

  /** `a / b`, with a zero divisor taken as giving 0. */
  function Div(a: real, b: real): real
  {
    if b == 0.0 then 0.0 else a / b
  }

  function Abs(v: real): real
  {
    if v < 0.0 then -v else v
  }

  /** `addInverseSumOfResistance`. */
  function AddInverseSumOfResistance(n: Node, resistance: real): (m: Node)
    ensures m.inverseSumOfResistance == n.inverseSumOfResistance + Reciprocal(resistance)
    ensures m.(inverseSumOfResistance := n.inverseSumOfResistance) == n
  {
    n.(inverseSumOfResistance := n.inverseSumOfResistance + Reciprocal(resistance))
  }

  // ---------------------------------------------------------------------
  // Relation lists

  /** `connectResistor`: one entry appended at the end, earlier entries and all else kept. */
  function ConnectResistor(n: Node, r: nat): (m: Node)
    ensures |m.resistors| == |n.resistors| + 1
    ensures m.resistors[..|n.resistors|] == n.resistors && m.resistors[|n.resistors|] == r
    ensures m.(resistors := n.resistors) == n
  {
    n.(resistors := n.resistors + [r])
  }

  /** `connectCurrentSource`: one entry appended at the end, earlier entries and all else kept. */
  function ConnectCurrentSource(n: Node, s: nat): (m: Node)
    ensures |m.currentSources| == |n.currentSources| + 1
    ensures m.currentSources[..|n.currentSources|] == n.currentSources
    ensures m.currentSources[|n.currentSources|] == s
    ensures m.(currentSources := n.currentSources) == n
  {
    n.(currentSources := n.currentSources + [s])
  }

  /** `connectVoltageSource`: one entry appended at the end, earlier entries and all else kept. */
  function ConnectVoltageSource(n: Node, s: nat): (m: Node)
    ensures |m.voltageSources| == |n.voltageSources| + 1
    ensures m.voltageSources[..|n.voltageSources|] == n.voltageSources
    ensures m.voltageSources[|n.voltageSources|] == s
    ensures m.(voltageSources := n.voltageSources) == n
  {
    n.(voltageSources := n.voltageSources + [s])
  }

  /** Every entry of `list` is below `bound`. */
  predicate Below(list: seq<nat>, bound: nat)
  {
    forall i :: 0 <= i < |list| ==> list[i] < bound
  }

  /** Every entry of `list` indexes `arena`. */
  predicate IndexesInto<T>(list: seq<nat>, arena: seq<T>)
  {
    Below(list, |arena|)
  }

  /** Two node arenas of one size whose nodes carry the same four link lists. */
  predicate SameLinks(a: seq<Node>, b: seq<Node>)
  {
    |a| == |b| &&
    forall i :: 0 <= i < |a| ==>
      b[i].neighborNodes == a[i].neighborNodes && b[i].resistors == a[i].resistors &&
      b[i].currentSources == a[i].currentSources && b[i].voltageSources == a[i].voltageSources
  }

  /** The names of the current sources, in arena order: the key a node's list is searched by. */
  function CurrentSourceNames(sources: seq<CurrentSource>): seq<string>
  {
    seq(|sources|, i requires 0 <= i < |sources| => sources[i].name)
  }

  /** The names of the voltage sources, in arena order. */
  function VoltageSourceNames(sources: seq<VoltageSource>): seq<string>
  {
    seq(|sources|, i requires 0 <= i < |sources| => sources[i].name)
  }

  /** The position of the first entry of `list` at or after `from` whose element is named `target`, or `|list|`. */
  function FirstNamedFrom(list: seq<nat>, names: seq<string>, target: string, from: nat): (k: nat)
    requires IndexesInto(list, names) && from <= |list|
    ensures from <= k <= |list|
    ensures forall i :: from <= i < k ==> names[list[i]] != target
    ensures k < |list| ==> names[list[k]] == target
    decreases |list| - from
  {
    if from == |list| then from
    else if names[list[from]] == target then from
    else FirstNamedFrom(list, names, target, from + 1)
  }

  function FirstNamed(list: seq<nat>, names: seq<string>, target: string): (k: nat)
    requires IndexesInto(list, names)
    ensures k <= |list|
    ensures forall i :: 0 <= i < k ==> names[list[i]] != target
    ensures k < |list| ==> names[list[k]] == target
  {
    FirstNamedFrom(list, names, target, 0)
  }

  /** Remove-first-by-name: the first entry named `target` is erased, the rest keep their order. */
  function RemoveFirstNamed(list: seq<nat>, names: seq<string>, target: string): (r: seq<nat>)
    requires IndexesInto(list, names)
    ensures IndexesInto(r, names)
  {
    var k := FirstNamed(list, names, target);
    if k == |list| then list else list[..k] + list[k + 1..]
  }

  /** With no entry named `target` the list is unchanged. */
  lemma RemoveNoMatch(list: seq<nat>, names: seq<string>, target: string)
    requires IndexesInto(list, names)
    requires forall i :: 0 <= i < |list| ==> names[list[i]] != target
    ensures RemoveFirstNamed(list, names, target) == list
  {
  }

  /**
   * With a match, exactly the first matching entry goes: the result is
   * one shorter, keeps every other entry in order, and loses one copy of
   * the erased element.
   */
  lemma RemoveMatch(list: seq<nat>, names: seq<string>, target: string, j: nat)
    requires IndexesInto(list, names)
    requires j < |list| && names[list[j]] == target
    ensures var k := FirstNamed(list, names, target);
      var r := RemoveFirstNamed(list, names, target);
      k <= j && |r| == |list| - 1 &&
      (forall i :: 0 <= i < k ==> r[i] == list[i]) &&
      (forall i :: k <= i < |r| ==> r[i] == list[i + 1]) &&
      multiset(r) + multiset{list[k]} == multiset(list)
  {
    var k := FirstNamed(list, names, target);
    var a, b := list[..k], list[k + 1..];
    var r := a + b;
    assert RemoveFirstNamed(list, names, target) == r;
    assert list == a + [list[k]] + b;
    assert forall i :: k <= i < |r| ==> r[i] == b[i - k];
  }

  /** Disconnecting by name undoes a connect when no earlier entry carries that name. */
  lemma {:induction false} RemoveUndoesAppend(list: seq<nat>, names: seq<string>, s: nat)
    requires IndexesInto(list, names) && s < |names|
    requires forall i :: 0 <= i < |list| ==> names[list[i]] != names[s]
    ensures RemoveFirstNamed(list + [s], names, names[s]) == list
  {
    var l := list + [s];
    assert forall i :: 0 <= i < |list| ==> l[i] == list[i];
    assert l[|list|] == s;
    var k := FirstNamed(l, names, names[s]);
    assert k == |list|;
    assert l[..k] == list;
  }

  /**
   * `disconnectCurrentSource`: the loop walks the list until an entry
   * with the target's name and erases that one entry.
   */
  method DisconnectCurrentSource(n: Node, sources: seq<CurrentSource>, target: CurrentSource)
    returns (m: Node)
    requires IndexesInto(n.currentSources, sources)
    ensures m == n.(currentSources :=
      RemoveFirstNamed(n.currentSources, CurrentSourceNames(sources), target.name))
  {
    ghost var names := CurrentSourceNames(sources);
    var list := n.currentSources;
    var k := 0;
    while k < |list| && sources[list[k]].name != target.name
      invariant 0 <= k <= |list|
      invariant forall i :: 0 <= i < k ==> names[list[i]] != target.name
    {
      k := k + 1;
    }
    assert k == FirstNamed(list, names, target.name);
    if k < |list| {
      m := n.(currentSources := list[..k] + list[k + 1..]);
    } else {
      m := n;
    }
  }

  /** `disconnectVoltageSource`: the same remove-first-by-name on the voltage-source list. */
  method DisconnectVoltageSource(n: Node, sources: seq<VoltageSource>, target: VoltageSource)
    returns (m: Node)
    requires IndexesInto(n.voltageSources, sources)
    ensures m == n.(voltageSources :=
      RemoveFirstNamed(n.voltageSources, VoltageSourceNames(sources), target.name))
  {
    ghost var names := VoltageSourceNames(sources);
    var list := n.voltageSources;
    var k := 0;
    while k < |list| && sources[list[k]].name != target.name
      invariant 0 <= k <= |list|
      invariant forall i :: 0 <= i < k ==> names[list[i]] != target.name
    {
      k := k + 1;
    }
    assert k == FirstNamed(list, names, target.name);
    if k < |list| {
      m := n.(voltageSources := list[..k] + list[k + 1..]);
    } else {
      m := n;
    }
  }

  /** `isViaNode`: true exactly when one of the attached resistors is a via. */
  method IsViaNode(n: Node, resistors: seq<Resistor>) returns (b: bool)
    requires IndexesInto(n.resistors, resistors)
    ensures b <==> exists k :: 0 <= k < |n.resistors| && IsViaResistor(resistors[n.resistors[k]])
  {
    var k := 0;
    while k < |n.resistors|
      invariant 0 <= k <= |n.resistors|
      invariant forall i :: 0 <= i < k ==> !IsViaResistor(resistors[n.resistors[i]])
    {
      if IsViaResistor(resistors[n.resistors[k]]) {
        return true;
      }
      k := k + 1;
    }
    return false;
  }

  /** `fullyDisconnection`: the four relation lists are emptied and nothing else changes. */
  function FullyDisconnection(n: Node): (m: Node)
    ensures m.resistors == [] && m.neighborNodes == []
    ensures m.currentSources == [] && m.voltageSources == []
    ensures m.(resistors := n.resistors, neighborNodes := n.neighborNodes,
               currentSources := n.currentSources, voltageSources := n.voltageSources) == n
  {
    n.(resistors := [], neighborNodes := [], currentSources := [], voltageSources := [])
  }

  // ---------------------------------------------------------------------
  // DC bookkeeping

  /** The node's links are usable: neighbours and resistors are parallel and in range. */
  predicate LinksInRange(n: Node, nodeCount: nat, resistors: seq<Resistor>)
  {
    |n.neighborNodes| == |n.resistors| &&
    Below(n.neighborNodes, nodeCount) &&
    IndexesInto(n.resistors, resistors)
  }

  /** The value of source `j`; an index outside the arena contributes nothing. */
  function SourceValue(sources: seq<CurrentSource>, j: nat): real
  {
    if j < |sources| then sources[j].value else 0.0
  }

  /** The values of the sources in `list`, summed in list order. */
  function CurrentSum(list: seq<nat>, sources: seq<CurrentSource>): real
  {
    if list == [] then 0.0
    else CurrentSum(list[..|list| - 1], sources) + SourceValue(sources, list[|list| - 1])
  }

  /**
   * Term `k` of a node's sweep sum, `neighbour.value / resistor.value`;
   * a link outside the arenas contributes nothing.
   */
  function NeighborTerm(n: Node, nodes: seq<Node>, resistors: seq<Resistor>, k: nat): real
  {
    if k < |n.neighborNodes| && k < |n.resistors| &&
       n.neighborNodes[k] < |nodes| && n.resistors[k] < |resistors|
    then Div(nodes[n.neighborNodes[k]].value, resistors[n.resistors[k]].value)
    else 0.0
  }

  /** The first `k` terms of the node's sweep sum. */
  function NeighborSumUpTo(n: Node, nodes: seq<Node>, resistors: seq<Resistor>, k: nat): real
  {
    if k == 0 then 0.0
    else NeighborSumUpTo(n, nodes, resistors, k - 1) + NeighborTerm(n, nodes, resistors, k - 1)
  }

  function NeighborSum(n: Node, nodes: seq<Node>, resistors: seq<Resistor>): real
  {
    NeighborSumUpTo(n, nodes, resistors, |n.resistors|)
  }

  /** The value one Gauss-Seidel step assigns to a non-voltage node. */
  function StepValue(n: Node, nodes: seq<Node>, resistors: seq<Resistor>): real
  {
    Div(NeighborSum(n, nodes, resistors) - n.sumOfCurrent, n.inverseSumOfResistance)
  }

  /** `reinitializationDC`: the current sum is recomputed; voltage nodes are left alone. */
  method ReinitializationDC(n: Node, sources: seq<CurrentSource>) returns (m: Node)
    requires IndexesInto(n.currentSources, sources)
    ensures n.isVoltageNode ==> m == n
    ensures !n.isVoltageNode ==>
      m == n.(sumOfCurrent := CurrentSum(n.currentSources, sources))
  {
    if n.isVoltageNode {
      return n;
    }
    var sum := 0.0;
    var k := 0;
    while k < |n.currentSources|
      invariant 0 <= k <= |n.currentSources|
      invariant sum == CurrentSum(n.currentSources[..k], sources)
    {
      assert n.currentSources[..k + 1][..k] == n.currentSources[..k];
      sum := sum + sources[n.currentSources[k]].value;
      k := k + 1;
    }
    assert n.currentSources[..k] == n.currentSources;
    m := n.(sumOfCurrent := sum);
  }

  /**
   * `stepDC`: a voltage node reports settled and keeps its value; any
   * other node takes its Gauss-Seidel value and reports settled exactly
   * when that moved it by less than `precision`. The loop index is a
   * `uint8_t`, so the loop ends only for fewer than 256 resistors.
   */
  method StepDC(n: Node, nodes: seq<Node>, resistors: seq<Resistor>, precision: real)
    returns (m: Node, settled: int)
    requires !n.isVoltageNode ==> LinksInRange(n, |nodes|, resistors) && |n.resistors| < 0x100
    ensures n.isVoltageNode ==> settled == 1 && m == n
    ensures !n.isVoltageNode ==> m == n.(value := StepValue(n, nodes, resistors))
    ensures !n.isVoltageNode ==>
      (settled == 1 <==> Abs(m.value - n.value) < precision) && (settled == 0 || settled == 1)
  {
    if n.isVoltageNode {
      return n, 1;
    }
    var sumOfNodes := 0.0;
    var previousValue := n.value;
    var i: U8 := 0;
    while i < |n.resistors|
      invariant 0 <= i <= |n.resistors|
      invariant sumOfNodes == NeighborSumUpTo(n, nodes, resistors, i)
    {
      sumOfNodes := sumOfNodes + Div(nodes[n.neighborNodes[i]].value, resistors[n.resistors[i]].value);
      i := i + 1;
    }
    m := n.(value := Div(sumOfNodes - n.sumOfCurrent, n.inverseSumOfResistance));
    settled := if Abs(m.value - previousValue) < precision then 1 else 0;
  }

  /**
   * `initializationDC`: a non-voltage node adds its source currents to the
   * current sum without resetting it first and takes the value
   * `(sumOfCurrent - sumOfNodes) / inverseSumOfResistance`; the loop index
   * is a `uint16_t`.
   */
  method InitializationDC(n: Node, nodes: seq<Node>, resistors: seq<Resistor>,
                          sources: seq<CurrentSource>) returns (m: Node)
    requires !n.isVoltageNode ==>
      LinksInRange(n, |nodes|, resistors) && |n.resistors| < 0x1_0000 &&
      IndexesInto(n.currentSources, sources)
    ensures n.isVoltageNode ==> m == n
    ensures !n.isVoltageNode ==>
      var current := n.sumOfCurrent + CurrentSum(n.currentSources, sources);
      m == n.(sumOfCurrent := current,
              value := Div(current - NeighborSum(n, nodes, resistors), n.inverseSumOfResistance))
  {
    if n.isVoltageNode {
      return n;
    }
    var sumOfNodes := 0.0;
    var i := 0;
    while i < |n.resistors|
      invariant 0 <= i <= |n.resistors|
      invariant sumOfNodes == NeighborSumUpTo(n, nodes, resistors, i)
    {
      sumOfNodes := sumOfNodes + Div(nodes[n.neighborNodes[i]].value, resistors[n.resistors[i]].value);
      i := i + 1;
    }
    var sumOfCurrent := n.sumOfCurrent;
    var k := 0;
    while k < |n.currentSources|
      invariant 0 <= k <= |n.currentSources|
      invariant sumOfCurrent == n.sumOfCurrent + CurrentSum(n.currentSources[..k], sources)
    {
      assert n.currentSources[..k + 1][..k] == n.currentSources[..k];
      sumOfCurrent := sumOfCurrent + sources[n.currentSources[k]].value;
      k := k + 1;
    }
    assert n.currentSources[..k] == n.currentSources;
    m := n.(sumOfCurrent := sumOfCurrent,
            value := Div(sumOfCurrent - sumOfNodes, n.inverseSumOfResistance));
  }
}
