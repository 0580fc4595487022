/**
 * The netlist front end of `PDNContainer` (src/pdn_container.cpp): the
 * line filter applied while reading the file and `resetWorkingGraph`,
 * which turns the retained lines into the element arenas.
 */
module Parser {
  import opened Types
  import opened Strings
  import opened NodeNames
  import opened Resistors
  import opened CurrentSources
  import opened VoltageSources
  import opened Nodes
  import opened Graph

  // ---------------------------------------------------------------------
  // Line filter

  /** `isElementLine`: the first character names a resistor, current or voltage source. */
  predicate IsElementChar(c: char)
  {
    c == 'i' || c == 'I' || c == 'R' || c == 'r' || c == 'V' || c == 'v'
  }

  /** `line[0]`; on an empty string it is the terminating `'\0'`. */
  function FirstChar(s: string): char
  {
    if s == [] then '\0' else s[0]
  }

  /** The line as kept, if the filter keeps it. */
  function KeptLine(raw: string): seq<string>
  {
    var t := Trimmed(raw);
    if IsElementChar(FirstChar(t)) then [t] else []
  }

  /** The file contents after the retain loop: trimmed element lines, in file order. */
  function RetainedLines(raw: seq<string>): (kept: seq<string>)
    ensures |kept| <= |raw|
    ensures forall i :: 0 <= i < |kept| ==>
      kept[i] != [] && IsElementChar(kept[i][0]) && !IsSpace(kept[i][|kept[i]| - 1])
  {
    if raw == [] then []
    else
      TrimmedEnds(raw[|raw| - 1]);
      RetainedLines(raw[..|raw| - 1]) + KeptLine(raw[|raw| - 1])
  }

  /** A line is kept exactly when its trimmed form starts with an element character. */
  lemma KeptLineIff(raw: string)
    ensures |RetainedLines([raw])| == 1 <==> IsElementChar(FirstChar(Trimmed(raw)))
    ensures RetainedLines([raw]) != [] ==> RetainedLines([raw]) == [Trimmed(raw)]
  {
    assert [raw][..0] == [];
  }

  /** Blank and whitespace-only lines never survive the filter. */
  lemma BlankLineDropped(raw: string)
    requires forall i :: 0 <= i < |raw| ==> IsSpace(raw[i])
    ensures RetainedLines([raw]) == []
  {
    TrimmedShape(raw);
    TrimmedEnds(raw);
    assert [raw][..0] == [];
  }

  /** The retain loop of the constructor: every line is trimmed and kept if it is an element line. */
  method RetainElementLines(raw: seq<string>) returns (kept: seq<string>)
    ensures kept == RetainedLines(raw)
  {
    kept := [];
    var k := 0;
    while k < |raw|
      invariant 0 <= k <= |raw|
      invariant kept == RetainedLines(raw[..k])
    {
      var line := Trim(raw[k]);
      assert raw[..k + 1][..k] == raw[..k];
      if IsElementChar(FirstChar(line)) {
        kept := kept + [line];
      }
      k := k + 1;
    }
    assert raw[..k] == raw;
  }

  // ---------------------------------------------------------------------
  // Graph builder

  /** What aborts `resetWorkingGraph`: the `runtime_error`, or a throw of `stoul` or `stod`. */
  datatype BuildError =
    | InvalidLine(message: string)
    | CoordinateOutOfRange(token: string)
    | InvalidValue(token: string)

  datatype Result<T> = Ok(value: T) | Err(error: BuildError)

  /** The graph under construction and the local name-to-node map of `resetWorkingGraph`. */
  datatype Builder = Builder(p: PdnState, names: map<string, nat>)

  /** Every name in the map points at a node carrying that name. */
  predicate NamesIndexNodes(b: Builder)
  {
    forall s :: s in b.names ==> b.names[s] < |b.p.nodes| && b.p.nodes[b.names[s]].name == s
  }

  /** Known names keep their nodes; a line only adds names. */
  predicate NamesGrow(b: Builder, r: Builder)
  {
    forall s :: s in b.names ==> s in r.names && r.names[s] == b.names[s]
  }

  predicate BuilderOk(b: Builder)
  {
    WellFormed(b.p) && EdgesConsistent(b.p) && NamesIndexNodes(b)
  }

  /** Looks the name up and creates the node, at the end of the arena, only if it is missing. */
  function EnsureNode(b: Builder, name: string, at: NodeCoords): (r: Builder)
    ensures name in r.names
    ensures r.p == b.p.(nodes := r.p.nodes)
    ensures name in b.names ==> r == b
    ensures name !in b.names ==>
      r.p.nodes == b.p.nodes + [NewNode(at, name)] && r.names == b.names[name := |b.p.nodes|]
  {
    if name in b.names then b
    else Builder(b.p.(nodes := b.p.nodes + [NewNode(at, name)]), b.names[name := |b.p.nodes|])
  }

  /** The per-endpoint part of a resistor line: neighbour, conductance and eligibility flags. */
  function ResistorEnd(n: Node, other: nat, resistance: real, layer: U32): (m: Node)
    ensures m.neighborNodes == n.neighborNodes + [other]
    ensures m.inverseSumOfResistance == n.inverseSumOfResistance + Reciprocal(resistance)
    ensures m.ableToConnectCurrentSource == (n.ableToConnectCurrentSource || layer == 1)
    ensures m.ableToConnectVoltageSource == (n.ableToConnectVoltageSource || layer == 9)
    ensures m.(neighborNodes := n.neighborNodes,
               inverseSumOfResistance := n.inverseSumOfResistance,
               ableToConnectCurrentSource := n.ableToConnectCurrentSource,
               ableToConnectVoltageSource := n.ableToConnectVoltageSource) == n
  {
    var m := AddInverseSumOfResistance(n.(neighborNodes := n.neighborNodes + [other]), resistance);
    if layer == 1 then m.(ableToConnectCurrentSource := true)
    else if layer == 9 then m.(ableToConnectVoltageSource := true)
    else m
  }

  /**
   * The linking half of an `R` line, once resistor `ri` and both endpoint
   * nodes exist: the resistor's ends, then each node's resistor list, then
   * each node's neighbour, conductance and flags, first endpoint first.
   */
  function LinkResistor(p: PdnState, ri: nat, a: nat, z: nat, value: real,
                        firstLayer: U32, secondLayer: U32): PdnState
    requires ri < |p.resistors| && a < |p.nodes| && z < |p.nodes|
  {
    var ns := p.nodes;
    var ns1 := ns[a := ConnectResistor(ns[a], ri)];
    var ns2 := ns1[z := ConnectResistor(ns1[z], ri)];
    var ns3 := ns2[a := ResistorEnd(ns2[a], z, value, firstLayer)];
    var ns4 := ns3[z := ResistorEnd(ns3[z], a, value, secondLayer)];
    p.(nodes := ns4, resistors := p.resistors[ri := p.resistors[ri].(connectedNodes := [a, z])])
  }

  /** An `R` line: the resistor, its endpoint nodes if new, and the links both ways. */
  function AddResistor(b: Builder, t: seq<string>, first: NodeCoords, second: NodeCoords,
                       value: real): Builder
    requires |t| == 4 && NamesIndexNodes(b)
  {
    var ri := |b.p.resistors|;
    var b1 := b.(p := b.p.(resistors := b.p.resistors + [NewResistor(first, second, value, t[0])]));
    var b3 := EnsureNode(EnsureNode(b1, t[1], first), t[2], second);
    Builder(LinkResistor(b3.p, ri, b3.names[t[1]], b3.names[t[2]], value, first.layer, second.layer),
            b3.names)
  }

  /** An `I` line: the source, its node if new, the link both ways; the node loses eligibility. */
  function AddCurrentSource(b: Builder, t: seq<string>, at: NodeCoords, value: real): Builder
    requires |t| == 4 && NamesIndexNodes(b)
  {
    var ci := |b.p.currentSources|;
    var b1 := EnsureNode(b, t[1], at);
    var a := b1.names[t[1]];
    var s := NewCurrentSource(at, value, t[0]).(connectedNode := Some(a));
    var n := ConnectCurrentSource(b1.p.nodes[a], ci).(ableToConnectCurrentSource := false);
    Builder(b1.p.(currentSources := b1.p.currentSources + [s], nodes := b1.p.nodes[a := n]), b1.names)
  }

  /**
   * A `V` line: the source and its link; the node's value grows by the
   * source value, it becomes a voltage node and loses voltage
   * eligibility, and the supply becomes this source's value.
   */
  function AddVoltageSource(b: Builder, t: seq<string>, at: NodeCoords, value: real): Builder
    requires |t| == 4 && NamesIndexNodes(b)
  {
    var vi := |b.p.voltageSources|;
    var b1 := EnsureNode(b, t[1], at);
    var a := b1.names[t[1]];
    var s := NewVoltageSource(at, value, t[0]).(connectedNode := Some(a));
    var n0 := ConnectVoltageSource(b1.p.nodes[a], vi);
    var n := n0.(value := n0.value + value, ableToConnectVoltageSource := false, isVoltageNode := true);
    Builder(b1.p.(voltageSources := b1.p.voltageSources + [s], nodes := b1.p.nodes[a := n],
                  supply := value), b1.names)
  }

  /**
   * One line of `resetWorkingGraph`: split on single spaces, exactly four
   * tokens or an `Invalid line` error, both node names and the value
   * parsed, then the element added according to the line's first
   * character.
   */
  function ApplyLine(b: Builder, line: string, toValue: string -> Option<real>): (r: Result<Builder>)
    requires NamesIndexNodes(b)
    ensures (r.Err? && r.error.InvalidLine?) <==> |Tokens(line)| != 4
    ensures r.Err? && r.error.InvalidLine? ==> r.error.message == "Invalid line: " + line
  {
    var t := Tokens(line);
    if |t| != 4 then Err(InvalidLine("Invalid line: " + line))
    else
      match NodeNameCoords(t[1])
      case None => Err(CoordinateOutOfRange(t[1]))
      case Some(first) =>
        match NodeNameCoords(t[2])
        case None => Err(CoordinateOutOfRange(t[2]))
        case Some(second) =>
          match toValue(t[3])
          case None => Err(InvalidValue(t[3]))
          case Some(value) =>
            var c := FirstChar(line);
            if c == 'r' || c == 'R' then Ok(AddResistor(b, t, first, second, value))
            else if c == 'i' || c == 'I' then Ok(AddCurrentSource(b, t, first, value))
            else if c == 'v' || c == 'V' then Ok(AddVoltageSource(b, t, first, value))
            else Ok(b)
  }

  // ---------------------------------------------------------------------
  // What one resistor line does to the arenas

  /** The endpoint updates of `LinkResistor`, node by node. */
  lemma LinkResistorNodes(p: PdnState, ri: nat, a: nat, z: nat, value: real,
                          firstLayer: U32, secondLayer: U32)
    requires ri < |p.resistors| && a < |p.nodes| && z < |p.nodes|
    ensures var q := LinkResistor(p, ri, a, z, value, firstLayer, secondLayer);
      q == p.(nodes := q.nodes, resistors := q.resistors) &&
      q.resistors == p.resistors[ri := p.resistors[ri].(connectedNodes := [a, z])] &&
      |q.nodes| == |p.nodes| &&
      (forall i :: 0 <= i < |p.nodes| && i != a && i != z ==> q.nodes[i] == p.nodes[i]) &&
      (forall i :: 0 <= i < |p.nodes| ==>
        q.nodes[i].name == p.nodes[i].name && GetCoordinates(q.nodes[i]) == GetCoordinates(p.nodes[i]) &&
        q.nodes[i].currentSources == p.nodes[i].currentSources &&
        q.nodes[i].voltageSources == p.nodes[i].voltageSources &&
        q.nodes[i].isVoltageNode == p.nodes[i].isVoltageNode &&
        q.nodes[i].fakedByCurrentSource == p.nodes[i].fakedByCurrentSource &&
        q.nodes[i].value == p.nodes[i].value &&
        q.nodes[i].sumOfCurrent == p.nodes[i].sumOfCurrent && q.nodes[i].realValue == p.nodes[i].realValue &&
        q.nodes[i] == p.nodes[i].(resistors := q.nodes[i].resistors, neighborNodes := q.nodes[i].neighborNodes,
          inverseSumOfResistance := q.nodes[i].inverseSumOfResistance,
          ableToConnectCurrentSource := q.nodes[i].ableToConnectCurrentSource,
          ableToConnectVoltageSource := q.nodes[i].ableToConnectVoltageSource)) &&
      (a != z ==>
        q.nodes[a].resistors == p.nodes[a].resistors + [ri] &&
        q.nodes[a].neighborNodes == p.nodes[a].neighborNodes + [z] &&
        q.nodes[z].resistors == p.nodes[z].resistors + [ri] &&
        q.nodes[z].neighborNodes == p.nodes[z].neighborNodes + [a] &&
        q.nodes[a].ableToConnectCurrentSource == (p.nodes[a].ableToConnectCurrentSource || firstLayer == 1) &&
        q.nodes[a].ableToConnectVoltageSource == (p.nodes[a].ableToConnectVoltageSource || firstLayer == 9) &&
        q.nodes[z].ableToConnectCurrentSource == (p.nodes[z].ableToConnectCurrentSource || secondLayer == 1) &&
        q.nodes[z].ableToConnectVoltageSource == (p.nodes[z].ableToConnectVoltageSource || secondLayer == 9) &&
        q.nodes[a].inverseSumOfResistance == p.nodes[a].inverseSumOfResistance + Reciprocal(value) &&
        q.nodes[z].inverseSumOfResistance == p.nodes[z].inverseSumOfResistance + Reciprocal(value)) &&
      (a == z ==>
        q.nodes[a].resistors == p.nodes[a].resistors + [ri, ri] &&
        q.nodes[a].neighborNodes == p.nodes[a].neighborNodes + [a, a] &&
        q.nodes[a].inverseSumOfResistance == p.nodes[a].inverseSumOfResistance + 2.0 * Reciprocal(value) &&
        q.nodes[a].ableToConnectCurrentSource ==
          (p.nodes[a].ableToConnectCurrentSource || firstLayer == 1 || secondLayer == 1) &&
        q.nodes[a].ableToConnectVoltageSource ==
          (p.nodes[a].ableToConnectVoltageSource || firstLayer == 9 || secondLayer == 9))
  {
    var ns := p.nodes;
    var ns1 := ns[a := ConnectResistor(ns[a], ri)];
    var ns2 := ns1[z := ConnectResistor(ns1[z], ri)];
    var ns3 := ns2[a := ResistorEnd(ns2[a], z, value, firstLayer)];
    var ns4 := ns3[z := ResistorEnd(ns3[z], a, value, secondLayer)];
    if a == z {
      assert ns4[a].resistors == ns[a].resistors + [ri] + [ri];
      assert ns4[a].neighborNodes == ns[a].neighborNodes + [a] + [a];
    }
  }

  /** Linking resistor `ri` keeps every index in range. */
  lemma LinkResistorWellFormed(p: PdnState, ri: nat, a: nat, z: nat, value: real,
                               firstLayer: U32, secondLayer: U32)
    requires WellFormed(p)
    requires ri < |p.resistors| && a < |p.nodes| && z < |p.nodes|
    ensures WellFormed(LinkResistor(p, ri, a, z, value, firstLayer, secondLayer))
  {
    var q := LinkResistor(p, ri, a, z, value, firstLayer, secondLayer);
    LinkResistorNodes(p, ri, a, z, value, firstLayer, secondLayer);
    forall i | 0 <= i < |q.nodes|
      ensures NodeLinksBelow(q.nodes[i], |q.nodes|, |q.resistors|,
                             |q.currentSources|, |q.voltageSources|)
    {
      assert NodeLinksBelow(p.nodes[i], |p.nodes|, |p.resistors|,
                            |p.currentSources|, |p.voltageSources|);
    }
    forall j | 0 <= j < |q.resistors| ensures Below(q.resistors[j].connectedNodes, |q.nodes|) {
      if j != ri {
        assert q.resistors[j] == p.resistors[j];
      }
    }
  }

  /** Linking a resistor nobody references yet keeps every edge consistent. */
  lemma LinkResistorEdges(p: PdnState, ri: nat, a: nat, z: nat, value: real,
                          firstLayer: U32, secondLayer: U32)
    requires WellFormed(p) && EdgesConsistent(p)
    requires ri < |p.resistors| && a < |p.nodes| && z < |p.nodes|
    requires forall i, k :: 0 <= i < |p.nodes| && 0 <= k < |p.nodes[i].resistors| ==>
      p.nodes[i].resistors[k] != ri
    ensures WellFormed(LinkResistor(p, ri, a, z, value, firstLayer, secondLayer))
    ensures EdgesConsistent(LinkResistor(p, ri, a, z, value, firstLayer, secondLayer))
  {
    var q := LinkResistor(p, ri, a, z, value, firstLayer, secondLayer);
    LinkResistorWellFormed(p, ri, a, z, value, firstLayer, secondLayer);
    LinkResistorNodes(p, ri, a, z, value, firstLayer, secondLayer);
    forall i, k | 0 <= i < |q.nodes| && 0 <= k < |q.nodes[i].resistors|
      ensures var ends := q.resistors[q.nodes[i].resistors[k]].connectedNodes;
        ends == [i, q.nodes[i].neighborNodes[k]] || ends == [q.nodes[i].neighborNodes[k], i]
    {
      var n, m := p.nodes[i], q.nodes[i];
      if k < |n.resistors| {
        assert m.resistors[k] == n.resistors[k] && m.neighborNodes[k] == n.neighborNodes[k];
        assert q.resistors[n.resistors[k]] == p.resistors[n.resistors[k]];
      } else if i == a {
        assert m.resistors[k] == ri;
      } else {
        assert i == z && m.resistors[k] == ri;
      }
    }
  }

  // ---------------------------------------------------------------------
  // The builder invariant

  /** Creating a missing node keeps the invariant and gives the name an index. */
  lemma EnsureNodeOk(b: Builder, name: string, at: NodeCoords)
    requires BuilderOk(b)
    ensures var r := EnsureNode(b, name, at);
      BuilderOk(r) && r.names[name] < |r.p.nodes| && r.p.nodes[r.names[name]].name == name &&
      r.p.nodes[..|b.p.nodes|] == b.p.nodes
  {
    var r := EnsureNode(b, name, at);
    if name !in b.names {
      var n := |b.p.nodes|;
      assert forall i :: 0 <= i < n ==> r.p.nodes[i] == b.p.nodes[i];
      assert r.p.nodes[n] == NewNode(at, name);
      assert WellFormed(r.p) by {
        forall i | 0 <= i < |r.p.nodes|
          ensures NodeLinksBelow(r.p.nodes[i], |r.p.nodes|, |r.p.resistors|,
                                 |r.p.currentSources|, |r.p.voltageSources|)
        {
          if i < n {
            assert NodeLinksBelow(b.p.nodes[i], n, |b.p.resistors|,
                                  |b.p.currentSources|, |b.p.voltageSources|);
          }
        }
      }
    }
  }

  /** Ensuring a node keeps the name map sound, only adds to it, and keeps the earlier nodes. */
  lemma EnsureNodeNames(b: Builder, name: string, at: NodeCoords)
    requires NamesIndexNodes(b)
    ensures var r := EnsureNode(b, name, at);
      NamesIndexNodes(r) && NamesGrow(b, r) &&
      r.names[name] < |r.p.nodes| && r.p.nodes[r.names[name]].name == name &&
      |b.p.nodes| <= |r.p.nodes| && r.p.nodes[..|b.p.nodes|] == b.p.nodes
  {
    var r := EnsureNode(b, name, at);
    if name !in b.names {
      assert forall i :: 0 <= i < |b.p.nodes| ==> r.p.nodes[i] == b.p.nodes[i];
    }
  }

  /** Appending a fresh, unlinked resistor keeps the invariant; no node references it yet. */
  lemma PushResistorOk(b: Builder, res: Resistor)
    requires BuilderOk(b) && res.connectedNodes == []
    ensures var r := b.(p := b.p.(resistors := b.p.resistors + [res]));
      BuilderOk(r) &&
      forall i, k :: 0 <= i < |r.p.nodes| && 0 <= k < |r.p.nodes[i].resistors| ==>
        r.p.nodes[i].resistors[k] != |b.p.resistors|
  {
    var r := b.(p := b.p.(resistors := b.p.resistors + [res]));
    var ri := |b.p.resistors|;
    assert forall j :: 0 <= j < ri ==> r.p.resistors[j] == b.p.resistors[j];
    forall i, k | 0 <= i < |r.p.nodes| && 0 <= k < |r.p.nodes[i].resistors|
      ensures r.p.nodes[i].resistors[k] < ri
    {
      assert NodeLinksBelow(b.p.nodes[i], |b.p.nodes|, ri, |b.p.currentSources|, |b.p.voltageSources|);
    }
  }

  /** Ensuring a node keeps every node's resistor list free of index `ri`. */
  lemma EnsureNodeKeepsUnreferenced(b: Builder, name: string, at: NodeCoords, ri: nat)
    requires forall i, k :: 0 <= i < |b.p.nodes| && 0 <= k < |b.p.nodes[i].resistors| ==>
      b.p.nodes[i].resistors[k] != ri
    ensures var r := EnsureNode(b, name, at);
      forall i, k :: 0 <= i < |r.p.nodes| && 0 <= k < |r.p.nodes[i].resistors| ==>
        r.p.nodes[i].resistors[k] != ri
  {
    var r := EnsureNode(b, name, at);
    assert forall i :: 0 <= i < |b.p.nodes| ==> r.p.nodes[i] == b.p.nodes[i];
  }

  lemma AddResistorOk(b: Builder, t: seq<string>, first: NodeCoords, second: NodeCoords, value: real)
    requires |t| == 4 && BuilderOk(b)
    ensures BuilderOk(AddResistor(b, t, first, second, value))
  {
    var ri := |b.p.resistors|;
    var b1 := b.(p := b.p.(resistors := b.p.resistors + [NewResistor(first, second, value, t[0])]));
    PushResistorOk(b, NewResistor(first, second, value, t[0]));
    var b2 := EnsureNode(b1, t[1], first);
    EnsureNodeOk(b1, t[1], first);
    EnsureNodeKeepsUnreferenced(b1, t[1], first, ri);
    var b3 := EnsureNode(b2, t[2], second);
    EnsureNodeOk(b2, t[2], second);
    EnsureNodeKeepsUnreferenced(b2, t[2], second, ri);
    var a, z := b3.names[t[1]], b3.names[t[2]];
    LinkResistorEdges(b3.p, ri, a, z, value, first.layer, second.layer);
    LinkResistorNodes(b3.p, ri, a, z, value, first.layer, second.layer);
  }

  /** An `I` line keeps the invariant. */
  lemma AddCurrentSourceOk(b: Builder, t: seq<string>, at: NodeCoords, value: real)
    requires |t| == 4 && BuilderOk(b)
    ensures BuilderOk(AddCurrentSource(b, t, at, value))
  {
    var b1 := EnsureNode(b, t[1], at);
    EnsureNodeOk(b, t[1], at);
    var a := b1.names[t[1]];
    var ci := |b1.p.currentSources|;
    var r := AddCurrentSource(b, t, at, value);
    assert r.p.nodes[a].resistors == b1.p.nodes[a].resistors;
    assert r.p.nodes[a].neighborNodes == b1.p.nodes[a].neighborNodes;
    forall i | 0 <= i < |r.p.nodes|
      ensures NodeLinksBelow(r.p.nodes[i], |r.p.nodes|, |r.p.resistors|,
                             |r.p.currentSources|, |r.p.voltageSources|)
    {
      assert NodeLinksBelow(b1.p.nodes[i], |b1.p.nodes|, |b1.p.resistors|, ci, |b1.p.voltageSources|);
    }
    assert forall j :: 0 <= j < ci ==> r.p.currentSources[j] == b1.p.currentSources[j];
  }

  /** A `V` line keeps the invariant. */
  lemma AddVoltageSourceOk(b: Builder, t: seq<string>, at: NodeCoords, value: real)
    requires |t| == 4 && BuilderOk(b)
    ensures BuilderOk(AddVoltageSource(b, t, at, value))
  {
    var b1 := EnsureNode(b, t[1], at);
    EnsureNodeOk(b, t[1], at);
    var a := b1.names[t[1]];
    var vi := |b1.p.voltageSources|;
    var r := AddVoltageSource(b, t, at, value);
    assert r.p.nodes[a].resistors == b1.p.nodes[a].resistors;
    assert r.p.nodes[a].neighborNodes == b1.p.nodes[a].neighborNodes;
    forall i | 0 <= i < |r.p.nodes|
      ensures NodeLinksBelow(r.p.nodes[i], |r.p.nodes|, |r.p.resistors|,
                             |r.p.currentSources|, |r.p.voltageSources|)
    {
      assert NodeLinksBelow(b1.p.nodes[i], |b1.p.nodes|, |b1.p.resistors|, |b1.p.currentSources|, vi);
    }
    assert forall j :: 0 <= j < vi ==> r.p.voltageSources[j] == b1.p.voltageSources[j];
  }

  /** Every accepted line keeps the invariant. */
  lemma ApplyLineOk(b: Builder, line: string, toValue: string -> Option<real>)
    requires BuilderOk(b)
    ensures var r := ApplyLine(b, line, toValue); r.Ok? ==> BuilderOk(r.value)
  {
    var t := Tokens(line);
    if |t| == 4 && NodeNameCoords(t[1]).Some? && NodeNameCoords(t[2]).Some? && toValue(t[3]).Some? {
      var first, second, value := NodeNameCoords(t[1]).value, NodeNameCoords(t[2]).value, toValue(t[3]).value;
      var c := FirstChar(line);
      if c == 'r' || c == 'R' {
        AddResistorOk(b, t, first, second, value);
      } else if c == 'i' || c == 'I' {
        AddCurrentSourceOk(b, t, first, value);
      } else if c == 'v' || c == 'V' {
        AddVoltageSourceOk(b, t, first, value);
      }
    }
  }

  // ---------------------------------------------------------------------
  // What each kind of line adds

  /** The node a name stands for before a line is applied, or a fresh node's zero value. */
  function PriorValue(b: Builder, name: string): real
    requires NamesIndexNodes(b)
  {
    if name in b.names then b.p.nodes[b.names[name]].value else 0.0
  }

  /** After linking, both endpoints list resistor `ri` and each other last. */
  lemma LinkResistorLastEntries(p: PdnState, ri: nat, a: nat, z: nat, value: real,
                                firstLayer: U32, secondLayer: U32)
    requires ri < |p.resistors| && a < |p.nodes| && z < |p.nodes|
    ensures var q := LinkResistor(p, ri, a, z, value, firstLayer, secondLayer);
      var na, nz := q.nodes[a], q.nodes[z];
      |na.resistors| > 0 && na.resistors[|na.resistors| - 1] == ri &&
      |nz.resistors| > 0 && nz.resistors[|nz.resistors| - 1] == ri &&
      |na.neighborNodes| > 0 && na.neighborNodes[|na.neighborNodes| - 1] == z &&
      |nz.neighborNodes| > 0 && nz.neighborNodes[|nz.neighborNodes| - 1] == a
  {
  }

  /**
   * An `R` line appends one resistor joining the nodes named by tokens 1
   * and 2 (created if new); sources, supply and lines are untouched.
   */
  lemma AddResistorEffect(b: Builder, t: seq<string>, first: NodeCoords, second: NodeCoords, value: real)
    requires |t| == 4 && NamesIndexNodes(b)
    ensures var r := AddResistor(b, t, first, second, value);
      t[1] in r.names && t[2] in r.names && NamesGrow(b, r) &&
      var a, z := r.names[t[1]], r.names[t[2]];
      a < |r.p.nodes| && z < |r.p.nodes| &&
      r.p.nodes[a].name == t[1] && r.p.nodes[z].name == t[2] &&
      r.p.resistors == b.p.resistors + [NewResistor(first, second, value, t[0]).(connectedNodes := [a, z])] &&
      r.p.currentSources == b.p.currentSources && r.p.voltageSources == b.p.voltageSources &&
      r.p.supply == b.p.supply && r.p.file == b.p.file
  {
    var ri := |b.p.resistors|;
    var res := NewResistor(first, second, value, t[0]);
    var b1 := b.(p := b.p.(resistors := b.p.resistors + [res]));
    var b2 := EnsureNode(b1, t[1], first);
    EnsureNodeNames(b1, t[1], first);
    var b3 := EnsureNode(b2, t[2], second);
    EnsureNodeNames(b2, t[2], second);
    var a, z := b3.names[t[1]], b3.names[t[2]];
    LinkResistorNodes(b3.p, ri, a, z, value, first.layer, second.layer);
    assert b3.p.resistors == b1.p.resistors;
    assert b1.p.resistors[ri := res.(connectedNodes := [a, z])] == b.p.resistors + [res.(connectedNodes := [a, z])];
  }

  /** An `R` line leaves the new resistor, and the opposite node, last in both endpoints' lists. */
  lemma AddResistorLinks(b: Builder, t: seq<string>, first: NodeCoords, second: NodeCoords, value: real)
    requires |t| == 4 && NamesIndexNodes(b)
    ensures var r := AddResistor(b, t, first, second, value);
      t[1] in r.names && t[2] in r.names &&
      var a, z := r.names[t[1]], r.names[t[2]];
      a < |r.p.nodes| && z < |r.p.nodes| &&
      var na, nz := r.p.nodes[a], r.p.nodes[z];
      |na.resistors| > 0 && na.resistors[|na.resistors| - 1] == |b.p.resistors| &&
      |nz.resistors| > 0 && nz.resistors[|nz.resistors| - 1] == |b.p.resistors| &&
      |na.neighborNodes| > 0 && na.neighborNodes[|na.neighborNodes| - 1] == z &&
      |nz.neighborNodes| > 0 && nz.neighborNodes[|nz.neighborNodes| - 1] == a
  {
    var ri := |b.p.resistors|;
    var res := NewResistor(first, second, value, t[0]);
    var b1 := b.(p := b.p.(resistors := b.p.resistors + [res]));
    var b2 := EnsureNode(b1, t[1], first);
    EnsureNodeNames(b1, t[1], first);
    var b3 := EnsureNode(b2, t[2], second);
    var a, z := b3.names[t[1]], b3.names[t[2]];
    LinkResistorLastEntries(b3.p, ri, a, z, value, first.layer, second.layer);
  }

  /**
   * An `I` line appends one source attached to the node named by token 1
   * (created if new); that node lists it last and can no longer take a
   * generated source.
   */
  lemma AddCurrentSourceEffect(b: Builder, t: seq<string>, at: NodeCoords, value: real)
    requires |t| == 4 && NamesIndexNodes(b)
    ensures var r := AddCurrentSource(b, t, at, value);
      t[1] in r.names && NamesGrow(b, r) &&
      var a := r.names[t[1]];
      a < |r.p.nodes| && r.p.nodes[a].name == t[1] &&
      r.p.currentSources == b.p.currentSources + [NewCurrentSource(at, value, t[0]).(connectedNode := Some(a))] &&
      r.p.resistors == b.p.resistors && r.p.voltageSources == b.p.voltageSources &&
      r.p.supply == b.p.supply && r.p.file == b.p.file &&
      |r.p.nodes[a].currentSources| > 0 &&
      r.p.nodes[a].currentSources[|r.p.nodes[a].currentSources| - 1] == |b.p.currentSources| &&
      !r.p.nodes[a].ableToConnectCurrentSource
  {
    EnsureNodeNames(b, t[1], at);
  }

  /**
   * A `V` line appends one source attached to the node named by token 1;
   * that node's value grows by the source value, it becomes a voltage node
   * that can no longer take a voltage source, and the supply is the value.
   */
  lemma AddVoltageSourceEffect(b: Builder, t: seq<string>, at: NodeCoords, value: real)
    requires |t| == 4 && NamesIndexNodes(b)
    ensures var r := AddVoltageSource(b, t, at, value);
      t[1] in r.names && NamesGrow(b, r) &&
      var a := r.names[t[1]];
      a < |r.p.nodes| && r.p.nodes[a].name == t[1] &&
      r.p.voltageSources == b.p.voltageSources + [NewVoltageSource(at, value, t[0]).(connectedNode := Some(a))] &&
      r.p.resistors == b.p.resistors && r.p.currentSources == b.p.currentSources &&
      r.p.supply == value && r.p.file == b.p.file &&
      |r.p.nodes[a].voltageSources| > 0 &&
      r.p.nodes[a].voltageSources[|r.p.nodes[a].voltageSources| - 1] == |b.p.voltageSources| &&
      r.p.nodes[a].value == PriorValue(b, t[1]) + value &&
      r.p.nodes[a].isVoltageNode && !r.p.nodes[a].ableToConnectVoltageSource
  {
    EnsureNodeNames(b, t[1], at);
  }

  // ---------------------------------------------------------------------
  // The whole file

  /** The builder after each retained line in turn, and the error of the first line that throws. */
  function BuildLines(b: Builder, lines: seq<string>, toValue: string -> Option<real>)
    : (r: (Builder, Option<BuildError>))
    requires BuilderOk(b)
    ensures BuilderOk(r.0)
    decreases |lines|
  {
    if lines == [] then (b, None)
    else
      ApplyLineOk(b, lines[0], toValue);
      match ApplyLine(b, lines[0], toValue)
      case Err(e) => (b, Some(e))
      case Ok(next) => BuildLines(next, lines[1..], toValue)
  }

  /** Processing stops at the first error: later lines change nothing; otherwise runs compose. */
  lemma {:induction false} BuildLinesAppend(b: Builder, lines: seq<string>, more: seq<string>,
                                            toValue: string -> Option<real>)
    requires BuilderOk(b)
    ensures var r := BuildLines(b, lines, toValue);
      BuildLines(b, lines + more, toValue) ==
        if r.1.Some? then r else BuildLines(r.0, more, toValue)
    decreases |lines|
  {
    if lines == [] {
      assert lines + more == more;
    } else {
      assert (lines + more)[0] == lines[0];
      assert (lines + more)[1..] == lines[1..] + more;
      ApplyLineOk(b, lines[0], toValue);
      match ApplyLine(b, lines[0], toValue)
      case Err(e) =>
      case Ok(next) => BuildLinesAppend(next, lines[1..], more, toValue);
    }
  }

  /** A retained line that does not split into exactly four tokens makes the whole build fail. */
  lemma {:induction false} BuildLinesRejectsMalformed(b: Builder, lines: seq<string>, k: nat,
                                                      toValue: string -> Option<real>)
    requires BuilderOk(b) && k < |lines| && |Tokens(lines[k])| != 4
    ensures BuildLines(b, lines, toValue).1.Some?
    decreases k
  {
    ApplyLineOk(b, lines[0], toValue);
    if k > 0 {
      match ApplyLine(b, lines[0], toValue)
      case Err(e) =>
      case Ok(next) => BuildLinesRejectsMalformed(next, lines[1..], k - 1, toValue);
    }
  }

  /** How many lines start with either of two characters. */
  function CountKind(lines: seq<string>, lower: char, upper: char): (n: nat)
    ensures n <= |lines|
  {
    if lines == [] then 0
    else CountKind(lines[..|lines| - 1], lower, upper) +
         (var c := FirstChar(lines[|lines| - 1]); if c == lower || c == upper then 1 else 0)
  }

  /** One accepted line adds exactly one element to the arena its first character names. */
  lemma ApplyLineCounts(b: Builder, line: string, toValue: string -> Option<real>)
    requires BuilderOk(b)
    ensures var r := ApplyLine(b, line, toValue); var c := FirstChar(line);
      r.Ok? ==>
        |r.value.p.resistors| == |b.p.resistors| + (if c == 'r' || c == 'R' then 1 else 0) &&
        |r.value.p.currentSources| == |b.p.currentSources| + (if c == 'i' || c == 'I' then 1 else 0) &&
        |r.value.p.voltageSources| == |b.p.voltageSources| + (if c == 'v' || c == 'V' then 1 else 0) &&
        |b.p.nodes| <= |r.value.p.nodes| && r.value.p.file == b.p.file
  {
    var t := Tokens(line);
    if |t| == 4 && NodeNameCoords(t[1]).Some? && NodeNameCoords(t[2]).Some? && toValue(t[3]).Some? {
      var first, second, value := NodeNameCoords(t[1]).value, NodeNameCoords(t[2]).value, toValue(t[3]).value;
      var c := FirstChar(line);
      if c == 'r' || c == 'R' {
        AddResistorEffect(b, t, first, second, value);
        AddResistorArenaSize(b, t, first, second, value);
      } else if c == 'i' || c == 'I' {
        AddCurrentSourceEffect(b, t, first, value);
        EnsureNodeNames(b, t[1], first);
      } else if c == 'v' || c == 'V' {
        AddVoltageSourceEffect(b, t, first, value);
        EnsureNodeNames(b, t[1], first);
      }
    }
  }

  /** An `R` line never removes a node. */
  lemma AddResistorArenaSize(b: Builder, t: seq<string>, first: NodeCoords, second: NodeCoords, value: real)
    requires |t| == 4 && NamesIndexNodes(b)
    ensures |b.p.nodes| <= |AddResistor(b, t, first, second, value).p.nodes|
  {
    var b1 := b.(p := b.p.(resistors := b.p.resistors + [NewResistor(first, second, value, t[0])]));
    var b2 := EnsureNode(b1, t[1], first);
    EnsureNodeNames(b1, t[1], first);
    var b3 := EnsureNode(b2, t[2], second);
    EnsureNodeNames(b2, t[2], second);
    LinkResistorNodes(b3.p, |b.p.resistors|, b3.names[t[1]], b3.names[t[2]], value, first.layer, second.layer);
  }

  /** A build without error holds one element per line of each kind, on top of what was there. */
  lemma {:induction false} BuildLinesCounts(b: Builder, lines: seq<string>, toValue: string -> Option<real>)
    requires BuilderOk(b)
    ensures var r := BuildLines(b, lines, toValue);
      r.1.None? ==>
        |r.0.p.resistors| == |b.p.resistors| + CountKind(lines, 'r', 'R') &&
        |r.0.p.currentSources| == |b.p.currentSources| + CountKind(lines, 'i', 'I') &&
        |r.0.p.voltageSources| == |b.p.voltageSources| + CountKind(lines, 'v', 'V')
    decreases |lines|
  {
    if lines != [] {
      var init := lines[..|lines| - 1];
      var last := lines[|lines| - 1];
      assert init + [last] == lines;
      BuildLinesAppend(b, init, [last], toValue);
      BuildLinesCounts(b, init, toValue);
      var r0 := BuildLines(b, init, toValue);
      if r0.1.None? {
        ApplyLineCounts(r0.0, last, toValue);
        ApplyLineOk(r0.0, last, toValue);
        assert [last][1..] == [];
      }
    }
  }

  // ---------------------------------------------------------------------
  // Node names are unique

  /** Every node is the one its name maps to. */
  predicate NodesNamed(b: Builder)
  {
    forall i :: 0 <= i < |b.p.nodes| ==> b.p.nodes[i].name in b.names && b.names[b.p.nodes[i].name] == i
  }

  lemma NodesNamedDistinct(b: Builder)
    requires NodesNamed(b)
    ensures DistinctNodeNames(b.p.nodes)
  {
  }

  lemma EnsureNodeNamed(b: Builder, name: string, at: NodeCoords)
    requires NamesIndexNodes(b) && NodesNamed(b)
    ensures NodesNamed(EnsureNode(b, name, at))
  {
    var r := EnsureNode(b, name, at);
    if name !in b.names {
      forall i | 0 <= i < |r.p.nodes|
        ensures r.p.nodes[i].name in r.names && r.names[r.p.nodes[i].name] == i
      {
        if i < |b.p.nodes| {
          assert r.p.nodes[i] == b.p.nodes[i];
        }
      }
    }
  }

  /** Linking a resistor renames no node. */
  lemma LinkResistorKeepsNames(p: PdnState, ri: nat, a: nat, z: nat, value: real,
                               firstLayer: U32, secondLayer: U32)
    requires ri < |p.resistors| && a < |p.nodes| && z < |p.nodes|
    ensures var q := LinkResistor(p, ri, a, z, value, firstLayer, secondLayer);
      |q.nodes| == |p.nodes| && forall i :: 0 <= i < |p.nodes| ==> q.nodes[i].name == p.nodes[i].name
  {
  }

  lemma AddResistorNamed(b: Builder, t: seq<string>, first: NodeCoords, second: NodeCoords, value: real)
    requires |t| == 4 && NamesIndexNodes(b) && NodesNamed(b)
    ensures NodesNamed(AddResistor(b, t, first, second, value))
  {
    var b1 := b.(p := b.p.(resistors := b.p.resistors + [NewResistor(first, second, value, t[0])]));
    EnsureNodeNamed(b1, t[1], first);
    var b2 := EnsureNode(b1, t[1], first);
    EnsureNodeNames(b1, t[1], first);
    EnsureNodeNamed(b2, t[2], second);
    var b3 := EnsureNode(b2, t[2], second);
    EnsureNodeNames(b2, t[2], second);
    LinkResistorKeepsNames(b3.p, |b.p.resistors|, b3.names[t[1]], b3.names[t[2]], value, first.layer, second.layer);
  }

  lemma AddCurrentSourceNamed(b: Builder, t: seq<string>, at: NodeCoords, value: real)
    requires |t| == 4 && NamesIndexNodes(b) && NodesNamed(b)
    ensures NodesNamed(AddCurrentSource(b, t, at, value))
  {
    EnsureNodeNamed(b, t[1], at);
    EnsureNodeNames(b, t[1], at);
  }

  lemma AddVoltageSourceNamed(b: Builder, t: seq<string>, at: NodeCoords, value: real)
    requires |t| == 4 && NamesIndexNodes(b) && NodesNamed(b)
    ensures NodesNamed(AddVoltageSource(b, t, at, value))
  {
    EnsureNodeNamed(b, t[1], at);
    EnsureNodeNames(b, t[1], at);
  }

  /** Applying a line keeps every node the one its name maps to. */
  lemma ApplyLineNamed(b: Builder, line: string, toValue: string -> Option<real>)
    requires NamesIndexNodes(b) && NodesNamed(b)
    ensures var r := ApplyLine(b, line, toValue); r.Ok? ==> NodesNamed(r.value)
  {
    var t := Tokens(line);
    if |t| == 4 && NodeNameCoords(t[1]).Some? && NodeNameCoords(t[2]).Some? && toValue(t[3]).Some? {
      var first, second, value := NodeNameCoords(t[1]).value, NodeNameCoords(t[2]).value, toValue(t[3]).value;
      var c := FirstChar(line);
      if c == 'r' || c == 'R' {
        AddResistorNamed(b, t, first, second, value);
      } else if c == 'i' || c == 'I' {
        AddCurrentSourceNamed(b, t, first, value);
      } else if c == 'v' || c == 'V' {
        AddVoltageSourceNamed(b, t, first, value);
      }
    }
  }

  lemma {:induction false} BuildLinesNamed(b: Builder, lines: seq<string>, toValue: string -> Option<real>)
    requires BuilderOk(b) && NodesNamed(b)
    ensures NodesNamed(BuildLines(b, lines, toValue).0)
    decreases |lines|
  {
    if lines != [] {
      ApplyLineOk(b, lines[0], toValue);
      ApplyLineNamed(b, lines[0], toValue);
      match ApplyLine(b, lines[0], toValue)
      case Err(e) =>
      case Ok(next) => BuildLinesNamed(next, lines[1..], toValue);
    }
  }

  /** The start of `resetWorkingGraph` on a freshly read file: empty arenas and an empty name map. */
  function EmptyBuilder(file: seq<string>, supply: real): (b: Builder)
    ensures BuilderOk(b) && NodesNamed(b)
  {
    Builder(PdnState(file, [], [], [], [], supply), map[])
  }

  /** Building from empty arenas creates one node per distinct name. */
  lemma FreshBuildDistinctNames(file: seq<string>, supply: real, toValue: string -> Option<real>)
    ensures DistinctNodeNames(BuildLines(EmptyBuilder(file, supply), file, toValue).0.p.nodes)
  {
    BuildLinesNamed(EmptyBuilder(file, supply), file, toValue);
    NodesNamedDistinct(BuildLines(EmptyBuilder(file, supply), file, toValue).0);
  }
}
