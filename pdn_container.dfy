/**
 * `PDNContainer` (include/pdn_container.h, src/pdn_container.cpp): the
 * object holding the retained netlist lines and the element arenas, and
 * the operations that build, perturb, solve and write the working graph.
 * Each method updates the fields in place and is proved to leave the
 * state the corresponding function of the other modules describes.
 */
module Container {
  import opened Types
  import opened Strings
  import opened Resistors
  import CurrentSources
  import opened VoltageSources
  import opened Nodes
  import opened Graph
  import opened Parser
  import opened Perturbation
  import opened DcSolver
  import opened Netlist

  class PdnContainer {
    var file: seq<string>
    var nodes: seq<Node>
    var resistors: seq<Resistor>
    var currentSources: seq<CurrentSources.CurrentSource>
    var voltageSources: seq<VoltageSource>
    /** `m_voltageSourceValue`: the value of the last voltage source read. */
    var supply: real
    /** The error the constructor's build threw, if any. */
    var failure: Option<BuildError>

    /** The fields as one value. */
    function State(): PdnState
      reads this
    {
      PdnState(file, nodes, resistors, currentSources, voltageSources, supply)
    }

    /** Every link is in range and the edge lists are parallel. */
    predicate Valid()
      reads this
    {
      WellFormed(State()) && EdgesConsistent(State())
    }

    /**
     * The file constructor: the retain loop keeps the trimmed element
     * lines, then `resetWorkingGraph` builds the arenas from them. A line
     * that throws is recorded in `failure`, with the arenas as the lines
     * before it left them.
     */
    constructor (raw: seq<string>, toValue: string -> Option<real>)
      ensures file == RetainedLines(raw)
      ensures var r := BuildLines(EmptyBuilder(file, 0.0), file, toValue);
              State() == r.0.p && failure == r.1
      ensures Valid()
    {
      file := [];
      nodes := [];
      resistors := [];
      currentSources := [];
      voltageSources := [];
      supply := 0.0;
      failure := None;
      new;
      file := RetainElementLines(raw);
      assert Builder(State(), map[]) == EmptyBuilder(file, 0.0);
      failure := ResetWorkingGraph(toValue);
    }

    /**
     * `resetWorkingGraph`: every retained line applied in turn to the
     * arenas as they stand, with fresh local name maps, up to the first
     * line that throws.
     */
    method ResetWorkingGraph(toValue: string -> Option<real>) returns (err: Option<BuildError>)
      requires Valid()
      modifies this
      ensures var r := BuildLines(Builder(old(State()), map[]), old(file), toValue);
              State() == r.0.p && err == r.1
      ensures file == old(file) && Valid()
    {
      var b := Builder(State(), map[]);
      ghost var b0 := b;
      var k := 0;
      err := None;
      while k < |file| && err.None?
        invariant 0 <= k <= |file| && file == old(file)
        invariant BuilderOk(b) && b.p.file == file
        invariant err.Some? ==> BuildLines(b0, file, toValue) == (b, err)
        invariant err.None? ==> BuildLines(b0, file, toValue) == BuildLines(b, file[k..], toValue)
        decreases |file| - k, if err.None? then 1 else 0
      {
        ApplyLineOk(b, file[k], toValue);
        ApplyLineCounts(b, file[k], toValue);
        assert file[k..][0] == file[k] && file[k..][1..] == file[k + 1..];
        match ApplyLine(b, file[k], toValue)
        case Err(e) =>
          err := Some(e);
        case Ok(next) =>
          b := next;
          k := k + 1;
      }
      if err.None? {
        assert file[k..] == [];
      }
      nodes, resistors := b.p.nodes, b.p.resistors;
      currentSources, voltageSources, supply := b.p.currentSources, b.p.voltageSources, b.p.supply;
    }

    /**
     * `fullyDisconnection`: every element's links are cleared, then the
     * four arenas are emptied; the lines and the supply value stay.
     */
    method FullyDisconnection()
      modifies this
      ensures nodes == [] && resistors == [] && currentSources == [] && voltageSources == []
      ensures file == old(file) && supply == old(supply) && failure == old(failure)
      ensures Valid()
    {
      var i := 0;
      while i < |nodes|
        invariant 0 <= i <= |nodes|
        invariant forall j :: 0 <= j < i ==> nodes[j].resistors == [] && nodes[j].currentSources == []
        invariant file == old(file) && supply == old(supply) && failure == old(failure)
      {
        nodes := nodes[i := Nodes.FullyDisconnection(nodes[i])];
        i := i + 1;
      }
      i := 0;
      while i < |resistors|
        invariant 0 <= i <= |resistors|
        invariant forall j :: 0 <= j < i ==> resistors[j].connectedNodes == []
        invariant file == old(file) && supply == old(supply) && failure == old(failure)
      {
        resistors := resistors[i := Resistors.FullyDisconnection(resistors[i])];
        i := i + 1;
      }
      i := 0;
      while i < |currentSources|
        invariant 0 <= i <= |currentSources|
        invariant forall j :: 0 <= j < i ==> currentSources[j].connectedNode == None
        invariant file == old(file) && supply == old(supply) && failure == old(failure)
      {
        currentSources := currentSources[i := CurrentSources.FullyDisconnection(currentSources[i])];
        i := i + 1;
      }
      i := 0;
      while i < |voltageSources|
        invariant 0 <= i <= |voltageSources|
        invariant forall j :: 0 <= j < i ==> voltageSources[j].connectedNode == None
        invariant file == old(file) && supply == old(supply) && failure == old(failure)
      {
        voltageSources := voltageSources[i := VoltageSources.FullyDisconnection(voltageSources[i])];
        i := i + 1;
      }
      nodes := [];
      resistors := [];
      currentSources := [];
      voltageSources := [];
    }

    /** `changeCurrentSourceValue`: every source value multiplied by `1 + delta`, in place. */
    method ChangeCurrentSourceValue(delta: real)
      modifies this
      ensures State() == old(State()).(currentSources := ScaleSources(old(currentSources), delta))
      ensures failure == old(failure)
      ensures old(Valid()) ==> Valid()
    {
      var i := 0;
      while i < |currentSources|
        invariant 0 <= i <= |currentSources| == |old(currentSources)|
        invariant forall j :: 0 <= j < i ==> currentSources[j] == ScaleSources(old(currentSources), delta)[j]
        invariant forall j :: i <= j < |currentSources| ==> currentSources[j] == old(currentSources)[j]
        invariant file == old(file) && nodes == old(nodes) && resistors == old(resistors)
        invariant voltageSources == old(voltageSources) && supply == old(supply) && failure == old(failure)
      {
        currentSources := currentSources[i := currentSources[i].(value := currentSources[i].value * (1.0 + delta))];
        i := i + 1;
      }
      assert currentSources == ScaleSources(old(currentSources), delta);
      if old(Valid()) {
        ScaleKeepsWellFormed(old(State()), delta);
      }
    }

    /** The candidate loop: the nodes able to take a source, in arena order. */
    method CollectEligible() returns (cands: seq<nat>)
      ensures cands == EligibleNodes(nodes)
    {
      cands := [];
      var i := 0;
      while i < |nodes|
        invariant 0 <= i <= |nodes|
        invariant cands == EligibleUpTo(nodes, i)
      {
        if !nodes[i].fakedByCurrentSource && nodes[i].ableToConnectCurrentSource {
          cands := cands + [i];
        }
        i := i + 1;
      }
    }

    /**
     * The placement loop of `connectFakeCurrentSources`: each target in
     * the set's order gets a new source named after the arena size, at the
     * node's coordinates, with the next value drawn from `[lo, hi)`, and
     * the node is marked as faked and no longer able.
     */
    method PlaceFakeSources(targets: seq<nat>, lo: real, hi: real, fractions: seq<real>)
      requires |targets| <= |fractions| && forall t :: 0 <= t < |targets| ==> targets[t] < |nodes|
      modifies this
      ensures State() == PlaceFakes(old(State()), targets, lo, hi, fractions)
      ensures failure == old(failure)
    {
      var t := 0;
      while t < |targets|
        invariant 0 <= t <= |targets| && |nodes| == |old(nodes)|
        invariant PlaceFakes(old(State()), targets, lo, hi, fractions) ==
          PlaceFakes(State(), targets[t..], lo, hi, fractions[t..])
        invariant failure == old(failure)
      {
        ghost var before := State();
        var index := targets[t];
        var name := "I" + NatToString(|currentSources| + 1);
        var source := CurrentSources.NewCurrentSource(GetCoordinates(nodes[index]),
          DrawValue(lo, hi, fractions[t]), name).(connectedNode := Some(index));
        nodes := nodes[index := ConnectCurrentSource(nodes[index], |currentSources|)
          .(ableToConnectCurrentSource := false, fakedByCurrentSource := true)];
        currentSources := currentSources + [source];
        assert State() == PlaceFake(before, index, DrawValue(lo, hi, fractions[t]));
        assert targets[t..][1..] == targets[t + 1..] && fractions[t..][1..] == fractions[t + 1..];
        t := t + 1;
      }
    }

    /**
     * `connectFakeCurrentSources`: the eligible nodes are collected, the
     * value range of the sources is folded, `ceil(|candidates| * delta)`
     * draws fill the set of target nodes, and each target gets a new
     * source; with no candidate, the existing sources are scaled instead.
     */
    method ConnectFakeCurrentSources(delta: real, picks: seq<nat>, fractions: seq<real>)
      requires Valid() && ConnectDelta(State(), delta) && ConnectDraws(State(), delta, picks, fractions)
      modifies this
      ensures State() == ConnectFake(old(State()), delta, picks, fractions)
      ensures failure == old(failure) && Valid()
    {
      ConnectFakeWellFormed(State(), delta, picks, fractions);
      var cands := CollectEligible();
      if |cands| > 0 {
        var minValue, maxValue := FoldValueRange(currentSources);
        var chosen := DrawSet(cands, picks, ConnectCount(|cands|, delta));
        assert chosen == ConnectTargets(State(), delta, picks);
        PlaceFakeSources(chosen, minValue, maxValue, fractions);
      } else {
        ChangeCurrentSourceValue(delta);
      }
    }

    /** The loop over the sources: those whose node no perturbation has touched, in arena order. */
    method CollectMovable() returns (movable: seq<nat>)
      requires SourceLinksOk(State())
      ensures movable == MovableSources(State())
    {
      movable := [];
      var i := 0;
      while i < |currentSources|
        invariant 0 <= i <= |currentSources|
        invariant movable == MovableUpTo(State(), i)
      {
        if !nodes[currentSources[i].connectedNode.value].fakedByCurrentSource {
          movable := movable + [i];
        }
        i := i + 1;
      }
    }

    /**
     * One pass of the move loop: source `d` is erased by name from the
     * node it sits on, which is marked able and faked; the source is
     * attached to node `c`, renamed with `_new` and given `c`'s
     * coordinates; node `c` takes it and is marked faked and not able.
     */
    method MoveSource(d: nat, c: nat)
      requires SourceLinksOk(State()) && d < |currentSources| && c < |nodes|
      modifies this
      ensures State() == MoveOne(old(State()), d, c)
      ensures failure == old(failure)
    {
      var o := currentSources[d].connectedNode.value;
      var left := DisconnectCurrentSource(nodes[o], currentSources, currentSources[d]);
      nodes := nodes[o := left.(ableToConnectCurrentSource := true, fakedByCurrentSource := true)];
      var s := currentSources[d];
      currentSources := currentSources[d := CurrentSources.SetNewCoords(
        s.(connectedNode := Some(c), name := s.name + "_new"), GetCoordinates(nodes[c]))];
      nodes := nodes[c := ConnectCurrentSource(nodes[c], d)
        .(ableToConnectCurrentSource := false, fakedByCurrentSource := true)];
    }

    /**
     * The move loop, bounded by both sets: the `i`-th drawn source goes to
     * the `i`-th drawn node for as long as both sets have an `i`-th member
     * and fewer than `total` passes were made.
     */
    method MoveSources(ds: seq<nat>, cs: seq<nat>, total: nat)
      requires SourceLinksOk(State()) && |ds| <= total && |cs| <= total
      requires PairsInRange(|nodes|, |currentSources|, ds, cs, Min(|ds|, |cs|))
      modifies this
      ensures State() == MoveFrom(old(State()), ds, cs, 0, Min(|ds|, |cs|))
      ensures failure == old(failure)
    {
      ghost var k := Min(|ds|, |cs|);
      ghost var states := MoveTraceOf(State(), ds, cs, k);
      var i := 0;
      while i < total && i < |ds| && i < |cs|
        invariant 0 <= i <= k && failure == old(failure)
        invariant State() == states[i]
      {
        MovePass(ds, cs, i, k, old(State()), states);
        i := i + 1;
      }
    }

    /** Pass `i` of the move loop: the state moves on from the `i`-th of the trace to the next. */
    method MovePass(ds: seq<nat>, cs: seq<nat>, i: nat, ghost k: nat, ghost p: PdnState, ghost states: seq<PdnState>)
      requires MoveTrace(p, states, ds, cs, k) && i < k && State() == states[i]
      modifies this
      ensures failure == old(failure) && State() == states[i + 1]
    {
      MoveSource(ds[i], cs[i]);
    }

    /**
     * `inverseCurrentSourcesPositions`: the eligible nodes and the movable
     * sources are collected; with both present, `floor(|movable| * delta)`
     * draws fill a set of sources and a set of nodes and the sources move
     * pair by pair; otherwise generated sources are connected instead.
     */
    method InverseCurrentSourcesPositions(delta: real, picksD: seq<nat>, picksC: seq<nat>, fractions: seq<real>)
      requires Valid() && InverseDelta(State(), delta) && InverseDraws(State(), delta, picksD, picksC, fractions)
      modifies this
      ensures SourceLinksOk(old(State()))
      ensures State() == Inverse(old(State()), delta, picksD, picksC, fractions)
      ensures failure == old(failure) && Valid()
      ensures StepBound(old(nodes), 0x100) ==> Ready(nodes, resistors, currentSources)
    {
      InverseWellFormed(State(), delta, picksD, picksC, fractions);
      var cands := CollectEligible();
      var movable := CollectMovable();
      if |movable| > 0 && |cands| > 0 {
        var total := MoveCount(|movable|, delta);
        var ds, cs := DrawSets(movable, picksD, cands, picksC, total);
        assert ds == SourcesToMove(State(), delta, picksD) && cs == NodesToFill(State(), delta, picksC);
        MoveSources(ds, cs, total);
      } else {
        ConnectFakeCurrentSources(delta, picksC, fractions);
      }
      forall j | 0 <= j < |old(nodes)|
        ensures nodes[j].resistors == old(nodes)[j].resistors && nodes[j].isVoltageNode == old(nodes)[j].isVoltageNode
      {
        InverseKeepsNode(old(State()), delta, picksD, picksC, fractions, j);
      }
      if StepBound(old(nodes), 0x100) {
        StepBoundSameShape(old(nodes), nodes, 0x100);
        ReadyOfWellFormed(State());
      }
    }

    /**
     * `solveDC`: the current sums are recomputed, then sweeps run until one
     * reports every node solved or `maxIterations` sweeps are done; the
     * count returned does not include the sweep that settled.
     */
    method SolveDC(precision: real, maxIterations: nat) returns (iterations: nat)
      requires Ready(nodes, resistors, currentSources)
      modifies this
      ensures var r := Solve(ReinitAll(old(nodes), currentSources), resistors, precision, maxIterations);
              nodes == r.0 && iterations == r.1
      ensures State() == old(State()).(nodes := nodes) && failure == old(failure)
      ensures Ready(nodes, resistors, currentSources)
      ensures old(Valid()) ==> Valid()
    {
      ghost var entry := nodes;
      nodes := ReinitPass(nodes, resistors, currentSources);
      StepBoundSameShape(entry, nodes, 0x100);
      ghost var start := nodes;
      iterations := 0;
      while iterations < maxIterations
        invariant iterations <= maxIterations
        invariant Ready(nodes, resistors, currentSources)
        invariant var rest := Solve(nodes, resistors, precision, maxIterations - iterations);
                  Solve(start, resistors, precision, maxIterations) == (rest.0, rest.1 + iterations)
        invariant file == old(file) && resistors == old(resistors) && currentSources == old(currentSources)
        invariant voltageSources == old(voltageSources) && supply == old(supply) && failure == old(failure)
      {
        ghost var before := nodes;
        var solved;
        nodes, solved := SweepPass(nodes, resistors, currentSources, precision);
        if solved == |nodes| {
          assert Solve(before, resistors, precision, maxIterations - iterations) == (nodes, 0);
          break;
        }
        iterations := iterations + 1;
      }
      SolveSameLinks(entry, currentSources, resistors, precision, maxIterations);
      if old(Valid()) {
        SameLinksKeepValid(old(State()), nodes);
      }
    }

    /**
     * `solveDCAndSaveRealValues`: the initial pass, a full `solveDC`, and
     * every node's solved value saved as its real value.
     */
    method SolveDCAndSaveRealValues(precision: real, maxIterations: nat)
      requires Ready(nodes, resistors, currentSources)
      modifies this
      ensures var init := InitFrom(old(nodes), resistors, currentSources, 0);
              nodes == SaveRealValues(Solve(ReinitAll(init, currentSources), resistors, precision, maxIterations).0)
      ensures State() == old(State()).(nodes := nodes) && failure == old(failure)
      ensures old(Valid()) ==> Valid()
    {
      ghost var before := nodes;
      StepBoundWiden(nodes, 0x100, 0x1_0000);
      nodes := InitPass(nodes, resistors, currentSources);
      InitFromSpec(before, resistors, currentSources, 0);
      StepBoundSameShape(before, nodes, 0x100);
      InitSameLinks(before, resistors, currentSources);
      if old(Valid()) {
        SameLinksKeepValid(old(State()), nodes);
      }
      var _ := SolveDC(precision, maxIterations);
      ghost var solved := nodes;
      nodes := SavePass(nodes);
      if old(Valid()) {
        SaveSameLinks(solved);
        SameLinksKeepValid(State().(nodes := solved), nodes);
      }
    }

    /**
     * `writeNetlistToFile`: the lines written, resistors first, then
     * voltage sources, then current sources.
     */
    method WriteNetlistToFile(fmt: real -> string) returns (lines: seq<string>)
      ensures lines == NetlistLines(State(), fmt)
    {
      lines := [];
      var i := 0;
      while i < |resistors|
        invariant 0 <= i <= |resistors|
        invariant lines == ResistorLines(resistors[..i], fmt)
      {
        assert ResistorLines(resistors[..i + 1], fmt) == ResistorLines(resistors[..i], fmt) + [Resistors.Line(resistors[i], fmt)];
        lines := lines + [resistors[i].name + " " + Resistors.ToString(resistors[i], fmt)];
        i := i + 1;
      }
      assert resistors[..i] == resistors;
      ghost var head := lines;
      i := 0;
      while i < |voltageSources|
        invariant 0 <= i <= |voltageSources|
        invariant lines == head + VoltageLines(voltageSources[..i], fmt)
      {
        assert VoltageLines(voltageSources[..i + 1], fmt) ==
          VoltageLines(voltageSources[..i], fmt) + [VoltageSources.Line(voltageSources[i], fmt)];
        lines := lines + [voltageSources[i].name + " " + VoltageSources.ToString(voltageSources[i], fmt)];
        i := i + 1;
      }
      assert voltageSources[..i] == voltageSources;
      head := lines;
      i := 0;
      while i < |currentSources|
        invariant 0 <= i <= |currentSources|
        invariant lines == head + CurrentLines(currentSources[..i], fmt)
      {
        assert CurrentLines(currentSources[..i + 1], fmt) ==
          CurrentLines(currentSources[..i], fmt) + [CurrentSources.Line(currentSources[i], fmt)];
        lines := lines + [currentSources[i].name + " " + CurrentSources.ToString(currentSources[i], fmt)];
        i := i + 1;
      }
      assert currentSources[..i] == currentSources;
    }
  }

  /** The `std::max` / `std::min` loop over the source values, both starting from 0. */
  method FoldValueRange(sources: seq<CurrentSources.CurrentSource>) returns (lo: real, hi: real)
    ensures lo == MinValue(sources) && hi == MaxValue(sources)
  {
    lo, hi := 0.0, 0.0;
    var i := 0;
    while i < |sources|
      invariant 0 <= i <= |sources|
      invariant hi == MaxValue(sources[..i]) && lo == MinValue(sources[..i])
    {
      assert sources[..i + 1][..i] == sources[..i];
      var v := sources[i].value;
      hi := if hi < v then v else hi;
      lo := if v < lo then v else lo;
      i := i + 1;
    }
    assert sources[..i] == sources;
  }

  /** The draw loop: `count` picks inserted into a `std::set` ordered largest first. */
  method DrawSet(cands: seq<nat>, picks: seq<nat>, count: nat) returns (chosen: seq<nat>)
    requires count <= |picks| && forall i :: 0 <= i < count ==> picks[i] < |cands|
    ensures chosen == Drawn(cands, picks, count)
  {
    chosen := [];
    var i: nat := 0;
    while i < count
      invariant i <= count
      invariant chosen == Drawn(cands, picks, i)
    {
      DrawnStep(cands, picks, i);
      chosen := InsertDesc(chosen, cands[picks[i]]);
      i := i + 1;
    }
  }

  /** The draw loop of the inverse: each pass inserts one source into one set and one node into the other. */
  method DrawSets(movable: seq<nat>, picksD: seq<nat>, cands: seq<nat>, picksC: seq<nat>, total: nat)
    returns (ds: seq<nat>, cs: seq<nat>)
    requires total <= |picksD| && forall i :: 0 <= i < total ==> picksD[i] < |movable|
    requires total <= |picksC| && forall i :: 0 <= i < total ==> picksC[i] < |cands|
    ensures ds == Drawn(movable, picksD, total) && cs == Drawn(cands, picksC, total)
  {
    ds, cs := [], [];
    var i: nat := 0;
    while i < total
      invariant i <= total
      invariant ds == Drawn(movable, picksD, i) && cs == Drawn(cands, picksC, i)
    {
      DrawnStep(movable, picksD, i);
      DrawnStep(cands, picksC, i);
      ds := InsertDesc(ds, movable[picksD[i]]);
      cs := InsertDesc(cs, cands[picksC[i]]);
      i := i + 1;
    }
  }

  // ---------------------------------------------------------------------
  // The per-node loops of the DC solver, over the node arena

  /** The `reinitializationDC` loop of `solveDC`: every node's current sum recomputed. */
  method ReinitPass(nodes: seq<Node>, resistors: seq<Resistor>, sources: seq<CurrentSources.CurrentSource>)
    returns (arena: seq<Node>)
    requires Linked(nodes, resistors, sources)
    ensures arena == ReinitAll(nodes, sources) && Linked(arena, resistors, sources)
  {
    arena := nodes;
    var i := 0;
    while i < |arena|
      invariant 0 <= i <= |arena| == |nodes|
      invariant forall j :: 0 <= j < i ==> arena[j] == ReinitAll(nodes, sources)[j]
      invariant forall j :: i <= j < |arena| ==> arena[j] == nodes[j]
      invariant Linked(arena, resistors, sources)
    {
      var m := ReinitializationDC(arena[i], sources);
      LinkedUpdate(arena, resistors, sources, i, m);
      arena := arena[i := m];
      i := i + 1;
    }
    assert arena == ReinitAll(nodes, sources);
  }

  /**
   * One pass of the iteration loop of `solveDC`: every node stepped in
   * arena order against the values as they stand, and the number of
   * nodes that reported solved.
   */
  method SweepPass(nodes: seq<Node>, resistors: seq<Resistor>, sources: seq<CurrentSources.CurrentSource>,
                   precision: real) returns (arena: seq<Node>, solved: nat)
    requires Ready(nodes, resistors, sources)
    ensures (arena, solved) == Sweep(nodes, resistors, precision) && Ready(arena, resistors, sources)
  {
    arena := nodes;
    solved := 0;
    var k := 0;
    while k < |arena|
      invariant 0 <= k <= |arena| == |nodes|
      invariant Ready(arena, resistors, sources)
      invariant Sweep(nodes, resistors, precision) ==
        (SweepFrom(arena, resistors, precision, k).0, SweepFrom(arena, resistors, precision, k).1 + solved)
    {
      var settled;
      arena, settled := SweepStep(arena, resistors, sources, precision, k);
      solved := solved + settled;
      k := k + 1;
    }
  }

  /** One `iterationDC` call inside a sweep: node `k` stepped, the rest of the sweep continues from `k + 1`. */
  method SweepStep(arena: seq<Node>, resistors: seq<Resistor>, sources: seq<CurrentSources.CurrentSource>,
                   precision: real, k: nat) returns (next: seq<Node>, settled: nat)
    requires Ready(arena, resistors, sources) && k < |arena|
    ensures |next| == |arena| && Ready(next, resistors, sources)
    ensures var rest := SweepFrom(next, resistors, precision, k + 1);
            SweepFrom(arena, resistors, precision, k) == (rest.0, rest.1 + settled)
  {
    var m, s := StepDC(arena[k], arena, resistors, precision);
    SweepFromStep(arena, resistors, precision, k, m, s);
    ReadyUpdate(arena, resistors, sources, k, m);
    next, settled := arena[k := m], s;
  }

  /** The `initializationDC` loop: nodes in arena order, each against the arena as it stands. */
  method InitPass(nodes: seq<Node>, resistors: seq<Resistor>, sources: seq<CurrentSources.CurrentSource>)
    returns (arena: seq<Node>)
    requires Linked(nodes, resistors, sources) && StepBound(nodes, 0x1_0000)
    ensures arena == InitFrom(nodes, resistors, sources, 0) && Linked(arena, resistors, sources)
  {
    arena := nodes;
    var i := 0;
    while i < |arena|
      invariant 0 <= i <= |arena| == |nodes|
      invariant InitFrom(nodes, resistors, sources, 0) == InitFrom(arena, resistors, sources, i)
      invariant Linked(arena, resistors, sources) && StepBound(arena, 0x1_0000)
    {
      var m := InitializationDC(arena[i], arena, resistors, sources);
      LinkedUpdate(arena, resistors, sources, i, m);
      StepBoundUpdate(arena, 0x1_0000, i, m);
      arena := arena[i := m];
      i := i + 1;
    }
  }

  /** The last loop of `solveDCAndSaveRealValues`: each node's value saved as its real value. */
  method SavePass(nodes: seq<Node>) returns (arena: seq<Node>)
    ensures arena == SaveRealValues(nodes)
  {
    arena := nodes;
    var i := 0;
    while i < |arena|
      invariant 0 <= i <= |arena| == |nodes|
      invariant forall j :: 0 <= j < i ==> arena[j] == SaveRealValues(nodes)[j]
      invariant forall j :: i <= j < |arena| ==> arena[j] == nodes[j]
    {
      arena := arena[i := arena[i].(realValue := arena[i].value)];
      i := i + 1;
    }
    assert arena == SaveRealValues(nodes);
  }

  /** A well-formed graph whose non-voltage nodes have fewer than 256 resistors each is ready for the solver. */
  lemma ReadyOfWellFormed(p: PdnState)
    requires WellFormed(p) && StepBound(p.nodes, 0x100)
    ensures Ready(p.nodes, p.resistors, p.currentSources)
  {
    forall i | 0 <= i < |p.nodes|
      ensures LinksInRange(p.nodes[i], |p.nodes|, p.resistors) && IndexesInto(p.nodes[i].currentSources, p.currentSources)
    {
      assert NodeLinksBelow(p.nodes[i], |p.nodes|, |p.resistors|, |p.currentSources|, |p.voltageSources|);
    }
  }
}
