/**
 * The DC solver of `PDNContainer` (src/pdn_container.cpp, `solveDC` and
 * `solveDCAndSaveRealValues`) as functions on the node arena: the passes
 * visit the nodes in arena order and each node reads the values its
 * neighbours hold at that moment, so a sweep is one Gauss-Seidel step.
 */
module DcSolver {
  import opened Types
  import opened Resistors
  import opened CurrentSources
  import opened Nodes

  /** Every node's resistor, neighbour and current-source links point into the arenas. */
  predicate Linked(nodes: seq<Node>, resistors: seq<Resistor>, sources: seq<CurrentSource>)
  {
    forall i :: 0 <= i < |nodes| ==>
      LinksInRange(nodes[i], |nodes|, resistors) && IndexesInto(nodes[i].currentSources, sources)
  }

  /**
   * Every node that walks its resistors has fewer than `bound` of them:
   * voltage nodes return before the loop, so they are not bounded.
   */
  predicate StepBound(nodes: seq<Node>, bound: nat)
  {
    forall i :: 0 <= i < |nodes| && !nodes[i].isVoltageNode ==> |nodes[i].resistors| < bound
  }

  /** Linked, and the `uint8_t`-indexed loop of `stepDC` terminates on every node that runs it. */
  predicate Ready(nodes: seq<Node>, resistors: seq<Resistor>, sources: seq<CurrentSource>)
  {
    Linked(nodes, resistors, sources) && StepBound(nodes, 0x100)
  }

  /** Only values changed: same nodes otherwise, voltage nodes untouched. */
  predicate ValuesOnly(before: seq<Node>, after: seq<Node>)
  {
    |after| == |before| &&
    forall i :: 0 <= i < |before| ==>
      after[i] == before[i].(value := after[i].value) &&
      (before[i].isVoltageNode ==> after[i] == before[i])
  }

  lemma ValuesOnlyTrans(a: seq<Node>, b: seq<Node>, c: seq<Node>)
    requires ValuesOnly(a, b) && ValuesOnly(b, c)
    ensures ValuesOnly(a, c)
  {
    forall i | 0 <= i < |a|
      ensures c[i] == a[i].(value := c[i].value)
    {
      assert b[i] == a[i].(value := b[i].value);
      assert c[i] == b[i].(value := c[i].value);
    }
  }

  /** Changing values only keeps an arena ready. */
  lemma ValuesOnlyReady(a: seq<Node>, b: seq<Node>, resistors: seq<Resistor>, sources: seq<CurrentSource>)
    requires Ready(a, resistors, sources) && ValuesOnly(a, b)
    ensures Ready(b, resistors, sources)
  {
    forall i | 0 <= i < |b|
      ensures LinksInRange(b[i], |b|, resistors) && IndexesInto(b[i].currentSources, sources)
      ensures !b[i].isVoltageNode ==> |b[i].resistors| < 0x100
    {
      assert b[i] == a[i].(value := b[i].value);
      assert LinksInRange(a[i], |a|, resistors);
    }
  }

  /** A node replaced by one with the same links keeps an arena linked. */
  lemma LinkedUpdate(nodes: seq<Node>, resistors: seq<Resistor>, sources: seq<CurrentSource>, k: nat, m: Node)
    requires Linked(nodes, resistors, sources) && k < |nodes|
    requires m.neighborNodes == nodes[k].neighborNodes && m.resistors == nodes[k].resistors
    requires m.currentSources == nodes[k].currentSources
    ensures Linked(nodes[k := m], resistors, sources)
  {
    var b := nodes[k := m];
    forall i | 0 <= i < |b|
      ensures LinksInRange(b[i], |b|, resistors) && IndexesInto(b[i].currentSources, sources)
    {
      assert LinksInRange(nodes[i], |nodes|, resistors);
    }
  }

  /** A node replaced by one with the same resistors and the same kind keeps the bound. */
  lemma StepBoundUpdate(nodes: seq<Node>, bound: nat, k: nat, m: Node)
    requires StepBound(nodes, bound) && k < |nodes|
    requires m.resistors == nodes[k].resistors && m.isVoltageNode == nodes[k].isVoltageNode
    ensures StepBound(nodes[k := m], bound)
  {
  }

  /** A node replaced by one with the same links and the same kind keeps an arena ready. */
  lemma ReadyUpdate(nodes: seq<Node>, resistors: seq<Resistor>, sources: seq<CurrentSource>, k: nat, m: Node)
    requires Ready(nodes, resistors, sources) && k < |nodes|
    requires m.neighborNodes == nodes[k].neighborNodes && m.resistors == nodes[k].resistors
    requires m.currentSources == nodes[k].currentSources && m.isVoltageNode == nodes[k].isVoltageNode
    ensures Ready(nodes[k := m], resistors, sources)
  {
    LinkedUpdate(nodes, resistors, sources, k, m);
    StepBoundUpdate(nodes, 0x100, k, m);
  }

  /** A bound on the resistors is kept by a wider one. */
  lemma StepBoundWiden(nodes: seq<Node>, bound: nat, wider: nat)
    requires StepBound(nodes, bound) && bound <= wider
    ensures StepBound(nodes, wider)
  {
  }

  /** Two arenas that agree on every node's resistors and kind share their bounds. */
  lemma StepBoundSameShape(a: seq<Node>, b: seq<Node>, bound: nat)
    requires StepBound(a, bound) && |a| == |b|
    requires forall i :: 0 <= i < |a| ==> b[i].resistors == a[i].resistors && b[i].isVoltageNode == a[i].isVoltageNode
    ensures StepBound(b, bound)
  {
  }

  // ---------------------------------------------------------------------
  // One sweep of `solveDC`

  /** Node `k` stepped against the arena as it stands, and whether it reported solved. */
  function StepAt(nodes: seq<Node>, resistors: seq<Resistor>, precision: real, k: nat)
    : (r: (seq<Node>, nat))
    requires k < |nodes|
    ensures |r.0| == |nodes| && r.1 <= 1
    ensures forall i :: 0 <= i < |nodes| && i != k ==> r.0[i] == nodes[i]
    ensures r.0[k] == nodes[k].(value := r.0[k].value)
    ensures nodes[k].isVoltageNode ==> r.0[k] == nodes[k]
    ensures r.1 == 1 <==> nodes[k].isVoltageNode || Abs(r.0[k].value - nodes[k].value) < precision
  {
    var n := nodes[k];
    var m := if n.isVoltageNode then n else n.(value := StepValue(n, nodes, resistors));
    (nodes[k := m], if n.isVoltageNode || Abs(m.value - n.value) < precision then 1 else 0)
  }

  /**
   * Nodes `k..` stepped in order, each against the arena as the earlier
   * steps left it, and the number of steps that reported the node solved.
   */
  function SweepFrom(nodes: seq<Node>, resistors: seq<Resistor>, precision: real, k: nat)
    : (r: (seq<Node>, nat))
    requires k <= |nodes|
    ensures |r.0| == |nodes| && r.1 <= |nodes| - k
    decreases |nodes| - k
  {
    if k == |nodes| then (nodes, 0)
    else
      var s := StepAt(nodes, resistors, precision, k);
      var rest := SweepFrom(s.0, resistors, precision, k + 1);
      (rest.0, rest.1 + s.1)
  }

  /** One step of a partial sweep, for a node stepped as `stepDC` does. */
  lemma SweepFromStep(nodes: seq<Node>, resistors: seq<Resistor>, precision: real, k: nat, m: Node, settled: int)
    requires k < |nodes|
    requires nodes[k].isVoltageNode ==> settled == 1 && m == nodes[k]
    requires !nodes[k].isVoltageNode ==>
      m == nodes[k].(value := StepValue(nodes[k], nodes, resistors)) &&
      (settled == 1 <==> Abs(m.value - nodes[k].value) < precision) && (settled == 0 || settled == 1)
    ensures StepAt(nodes, resistors, precision, k) == (nodes[k := m], settled)
    ensures var rest := SweepFrom(nodes[k := m], resistors, precision, k + 1);
            SweepFrom(nodes, resistors, precision, k) == (rest.0, rest.1 + settled)
  {
  }

  /** A partial sweep leaves the nodes before `k` alone. */
  lemma {:induction false} SweepFromPrefix(nodes: seq<Node>, resistors: seq<Resistor>, precision: real, k: nat)
    requires k <= |nodes|
    ensures var r := SweepFrom(nodes, resistors, precision, k);
      forall i :: 0 <= i < k ==> r.0[i] == nodes[i]
    decreases |nodes| - k
  {
    if k < |nodes| {
      SweepFromPrefix(StepAt(nodes, resistors, precision, k).0, resistors, precision, k + 1);
    }
  }

  /** A partial sweep changes only the values of non-voltage nodes. */
  lemma {:induction false} SweepFromValuesOnly(nodes: seq<Node>, resistors: seq<Resistor>, precision: real, k: nat)
    requires k <= |nodes|
    ensures ValuesOnly(nodes, SweepFrom(nodes, resistors, precision, k).0)
    decreases |nodes| - k
  {
    if k < |nodes| {
      var s := StepAt(nodes, resistors, precision, k);
      SweepFromValuesOnly(s.0, resistors, precision, k + 1);
      assert ValuesOnly(nodes, s.0);
      ValuesOnlyTrans(nodes, s.0, SweepFrom(s.0, resistors, precision, k + 1).0);
    }
  }

  /** Whether node `i` counts as solved when it went from `before` to `after`. */
  predicate SolvedAt(before: seq<Node>, after: seq<Node>, precision: real, i: nat)
    requires i < |before| && i < |after|
  {
    before[i].isVoltageNode || Abs(after[i].value - before[i].value) < precision
  }

  /** How many of the nodes `k..` count as solved. */
  function SolvedCount(before: seq<Node>, after: seq<Node>, precision: real, k: nat): (c: nat)
    requires |before| == |after| && k <= |before|
    ensures c <= |before| - k
    decreases |before| - k
  {
    if k == |before| then 0
    else SolvedCount(before, after, precision, k + 1) + (if SolvedAt(before, after, precision, k) then 1 else 0)
  }

  /** The count is full exactly when every node from `k` on counts as solved. */
  lemma {:induction false} SolvedCountFull(before: seq<Node>, after: seq<Node>, precision: real, k: nat)
    requires |before| == |after| && k <= |before|
    ensures SolvedCount(before, after, precision, k) == |before| - k <==>
      forall i :: k <= i < |before| ==> SolvedAt(before, after, precision, i)
    decreases |before| - k
  {
    if k < |before| {
      SolvedCountFull(before, after, precision, k + 1);
    }
  }

  /** Counts agree on arenas whose values and kinds agree from `k` on. */
  lemma {:induction false} SolvedCountAgrees(a: seq<Node>, b: seq<Node>, after: seq<Node>, precision: real, k: nat)
    requires |a| == |b| == |after| && k <= |a|
    requires forall i :: k <= i < |a| ==> a[i].value == b[i].value && a[i].isVoltageNode == b[i].isVoltageNode
    ensures SolvedCount(a, after, precision, k) == SolvedCount(b, after, precision, k)
    decreases |a| - k
  {
    if k < |a| {
      SolvedCountAgrees(a, b, after, precision, k + 1);
    }
  }

  /** A partial sweep reports as solved exactly the nodes that count as solved. */
  lemma {:induction false} SweepFromCount(nodes: seq<Node>, resistors: seq<Resistor>, precision: real, k: nat)
    requires k <= |nodes|
    ensures var r := SweepFrom(nodes, resistors, precision, k);
      r.1 == SolvedCount(nodes, r.0, precision, k)
    decreases |nodes| - k
  {
    if k < |nodes| {
      var s := StepAt(nodes, resistors, precision, k);
      SweepFromCount(s.0, resistors, precision, k + 1);
      SweepFromPrefix(s.0, resistors, precision, k + 1);
      var rest := SweepFrom(s.0, resistors, precision, k + 1);
      assert rest.0[k] == s.0[k];
      SolvedCountAgrees(s.0, nodes, rest.0, precision, k + 1);
    }
  }

  /** One full sweep: the arena after it and how many nodes reported solved. */
  function Sweep(nodes: seq<Node>, resistors: seq<Resistor>, precision: real): (r: (seq<Node>, nat))
    ensures |r.0| == |nodes| && r.1 <= |nodes|
  {
    SweepFrom(nodes, resistors, precision, 0)
  }

  /** A sweep settles when its solved count equals the number of nodes. */
  predicate Settles(nodes: seq<Node>, resistors: seq<Resistor>, precision: real)
  {
    Sweep(nodes, resistors, precision).1 == |nodes|
  }

  /** A sweep settles exactly when no non-voltage node moved by `precision` or more. */
  lemma SettlesIff(nodes: seq<Node>, resistors: seq<Resistor>, precision: real)
    ensures var after := Sweep(nodes, resistors, precision).0;
      Settles(nodes, resistors, precision) <==>
        forall i :: 0 <= i < |nodes| && !nodes[i].isVoltageNode ==> Abs(after[i].value - nodes[i].value) < precision
  {
    var r := Sweep(nodes, resistors, precision);
    SweepFromCount(nodes, resistors, precision, 0);
    SolvedCountFull(nodes, r.0, precision, 0);
    if r.1 == |nodes| {
      forall i | 0 <= i < |nodes| && !nodes[i].isVoltageNode
        ensures Abs(r.0[i].value - nodes[i].value) < precision
      {
        assert SolvedAt(nodes, r.0, precision, i);
      }
    }
  }

  /** A sweep changes only the values of non-voltage nodes. */
  lemma SweepValuesOnly(nodes: seq<Node>, resistors: seq<Resistor>, precision: real)
    ensures ValuesOnly(nodes, Sweep(nodes, resistors, precision).0)
  {
    SweepFromValuesOnly(nodes, resistors, precision, 0);
  }

  // ---------------------------------------------------------------------
  // The iteration loop of `solveDC`

  /** The arena after `j` sweeps. */
  function Sweeps(nodes: seq<Node>, resistors: seq<Resistor>, precision: real, j: nat): (r: seq<Node>)
    ensures |r| == |nodes|
    decreases j
  {
    if j == 0 then nodes
    else Sweeps(Sweep(nodes, resistors, precision).0, resistors, precision, j - 1)
  }

  /**
   * At most `budget` sweeps, stopping after the first that settles; the
   * second component is the loop counter `solveDC` returns, which is not
   * incremented for the settling sweep.
   */
  function Solve(nodes: seq<Node>, resistors: seq<Resistor>, precision: real, budget: nat)
    : (r: (seq<Node>, nat))
    ensures |r.0| == |nodes| && r.1 <= budget
    decreases budget
  {
    if budget == 0 then (nodes, 0)
    else
      var s := Sweep(nodes, resistors, precision);
      if s.1 == |nodes| then (s.0, 0)
      else
        var rest := Solve(s.0, resistors, precision, budget - 1);
        (rest.0, rest.1 + 1)
  }

  /** No sweep before the one `solveDC` reports settled. */
  lemma {:induction false} SolveNoEarlierSettling(nodes: seq<Node>, resistors: seq<Resistor>,
                                                  precision: real, budget: nat)
    ensures var r := Solve(nodes, resistors, precision, budget);
      forall j :: 0 <= j < r.1 ==> !Settles(Sweeps(nodes, resistors, precision, j), resistors, precision)
    decreases budget
  {
    if budget > 0 {
      var s := Sweep(nodes, resistors, precision);
      if s.1 != |nodes| {
        SolveNoEarlierSettling(s.0, resistors, precision, budget - 1);
        var r := Solve(nodes, resistors, precision, budget);
        forall j | 0 <= j < r.1
          ensures !Settles(Sweeps(nodes, resistors, precision, j), resistors, precision)
        {
          if j > 0 {
            assert Sweeps(nodes, resistors, precision, j) == Sweeps(s.0, resistors, precision, j - 1);
          }
        }
      }
    }
  }

  /** A count below the budget is the index of a settling sweep; the arena is as that sweep left it. */
  lemma {:induction false} SolveStopsAfterSettling(nodes: seq<Node>, resistors: seq<Resistor>,
                                                   precision: real, budget: nat)
    ensures var r := Solve(nodes, resistors, precision, budget);
      r.1 < budget ==>
        Settles(Sweeps(nodes, resistors, precision, r.1), resistors, precision) &&
        r.0 == Sweeps(nodes, resistors, precision, r.1 + 1)
    decreases budget
  {
    if budget > 0 {
      var s := Sweep(nodes, resistors, precision);
      if s.1 != |nodes| {
        SolveStopsAfterSettling(s.0, resistors, precision, budget - 1);
        var rest := Solve(s.0, resistors, precision, budget - 1);
        assert Sweeps(nodes, resistors, precision, rest.1 + 1) == Sweeps(s.0, resistors, precision, rest.1);
        assert Sweeps(nodes, resistors, precision, rest.1 + 2) == Sweeps(s.0, resistors, precision, rest.1 + 1);
      } else {
        assert Sweeps(nodes, resistors, precision, 1) == Sweeps(s.0, resistors, precision, 0);
      }
    }
  }

  /** A count equal to the budget means every one of the sweeps ran. */
  lemma {:induction false} SolveExhaustsBudget(nodes: seq<Node>, resistors: seq<Resistor>,
                                               precision: real, budget: nat)
    ensures var r := Solve(nodes, resistors, precision, budget);
      r.1 == budget ==> r.0 == Sweeps(nodes, resistors, precision, budget)
    decreases budget
  {
    if budget > 0 {
      var s := Sweep(nodes, resistors, precision);
      if s.1 != |nodes| {
        SolveExhaustsBudget(s.0, resistors, precision, budget - 1);
      }
    }
  }

  /** However many sweeps run, only values of non-voltage nodes change. */
  lemma {:induction false} SolveValuesOnly(nodes: seq<Node>, resistors: seq<Resistor>,
                                           precision: real, budget: nat)
    ensures ValuesOnly(nodes, Solve(nodes, resistors, precision, budget).0)
    decreases budget
  {
    var r := Solve(nodes, resistors, precision, budget);
    if budget == 0 {
      assert r.0 == nodes;
    } else {
      var s := Sweep(nodes, resistors, precision);
      SweepValuesOnly(nodes, resistors, precision);
      if s.1 != |nodes| {
        SolveValuesOnly(s.0, resistors, precision, budget - 1);
        ValuesOnlyTrans(nodes, s.0, r.0);
      }
    }
  }

  /** The recomputed current sums and the sweeps change no node's links. */
  lemma SolveSameLinks(nodes: seq<Node>, sources: seq<CurrentSource>, resistors: seq<Resistor>,
                       precision: real, budget: nat)
    ensures SameLinks(nodes, Solve(ReinitAll(nodes, sources), resistors, precision, budget).0)
  {
    var start := ReinitAll(nodes, sources);
    var r := Solve(start, resistors, precision, budget).0;
    SolveValuesOnly(start, resistors, precision, budget);
    forall i | 0 <= i < |nodes|
      ensures r[i].neighborNodes == nodes[i].neighborNodes && r[i].resistors == nodes[i].resistors
      ensures r[i].currentSources == nodes[i].currentSources && r[i].voltageSources == nodes[i].voltageSources
    {
      assert r[i] == start[i].(value := r[i].value);
    }
  }

  // ---------------------------------------------------------------------
  // The passes before the sweeps

  /** `reinitializationDC` on every node: current sums recomputed from the sources. */
  function ReinitAll(nodes: seq<Node>, sources: seq<CurrentSource>): (r: seq<Node>)
    ensures |r| == |nodes|
    ensures forall i :: 0 <= i < |nodes| ==>
      r[i] == nodes[i].(sumOfCurrent := r[i].sumOfCurrent) &&
      (nodes[i].isVoltageNode ==> r[i] == nodes[i]) &&
      (!nodes[i].isVoltageNode ==> r[i].sumOfCurrent == CurrentSum(nodes[i].currentSources, sources))
  {
    seq(|nodes|, i requires 0 <= i < |nodes| =>
      if nodes[i].isVoltageNode then nodes[i]
      else nodes[i].(sumOfCurrent := CurrentSum(nodes[i].currentSources, sources)))
  }

  /**
   * `initializationDC` on nodes `k..` in order, each against the arena as
   * the earlier nodes left it: source currents added to the current sum,
   * and a first value from the neighbours.
   */
  function InitFrom(nodes: seq<Node>, resistors: seq<Resistor>, sources: seq<CurrentSource>, k: nat)
    : (r: seq<Node>)
    requires k <= |nodes|
    ensures |r| == |nodes|
    decreases |nodes| - k
  {
    if k == |nodes| then nodes
    else
      var n := nodes[k];
      var current := n.sumOfCurrent + CurrentSum(n.currentSources, sources);
      var m := if n.isVoltageNode then n
               else n.(sumOfCurrent := current,
                       value := Div(current - NeighborSum(n, nodes, resistors), n.inverseSumOfResistance));
      InitFrom(nodes[k := m], resistors, sources, k + 1)
  }

  /**
   * The initial pass leaves voltage nodes alone and adds each other
   * node's source currents to its current sum; nothing else changes but
   * values.
   */
  lemma {:induction false} InitFromSpec(nodes: seq<Node>, resistors: seq<Resistor>,
                                        sources: seq<CurrentSource>, k: nat)
    requires k <= |nodes|
    ensures var r := InitFrom(nodes, resistors, sources, k);
      (forall i :: 0 <= i < k ==> r[i] == nodes[i]) &&
      forall i :: k <= i < |nodes| ==>
        r[i] == nodes[i].(value := r[i].value, sumOfCurrent := r[i].sumOfCurrent) &&
        (nodes[i].isVoltageNode ==> r[i] == nodes[i]) &&
        (!nodes[i].isVoltageNode ==>
          r[i].sumOfCurrent == nodes[i].sumOfCurrent + CurrentSum(nodes[i].currentSources, sources))
    decreases |nodes| - k
  {
    if k < |nodes| {
      var n := nodes[k];
      var current := n.sumOfCurrent + CurrentSum(n.currentSources, sources);
      var m := if n.isVoltageNode then n
               else n.(sumOfCurrent := current,
                       value := Div(current - NeighborSum(n, nodes, resistors), n.inverseSumOfResistance));
      InitFromSpec(nodes[k := m], resistors, sources, k + 1);
    }
  }

  /** The initial pass changes no node's links. */
  lemma InitSameLinks(nodes: seq<Node>, resistors: seq<Resistor>, sources: seq<CurrentSource>)
    ensures SameLinks(nodes, InitFrom(nodes, resistors, sources, 0))
  {
    var r := InitFrom(nodes, resistors, sources, 0);
    InitFromSpec(nodes, resistors, sources, 0);
    forall i | 0 <= i < |nodes|
      ensures r[i].neighborNodes == nodes[i].neighborNodes && r[i].resistors == nodes[i].resistors
      ensures r[i].currentSources == nodes[i].currentSources && r[i].voltageSources == nodes[i].voltageSources
    {
      assert r[i] == nodes[i].(value := r[i].value, sumOfCurrent := r[i].sumOfCurrent);
    }
  }

  /** `realValue = value` on every node. */
  function SaveRealValues(nodes: seq<Node>): (r: seq<Node>)
    ensures |r| == |nodes|
    ensures forall i :: 0 <= i < |nodes| ==>
      r[i].realValue == nodes[i].value && r[i].(realValue := nodes[i].realValue) == nodes[i]
  {
    seq(|nodes|, i requires 0 <= i < |nodes| => nodes[i].(realValue := nodes[i].value))
  }

  /** Saving the real values changes no node's links. */
  lemma SaveSameLinks(nodes: seq<Node>)
    ensures SameLinks(nodes, SaveRealValues(nodes))
  {
    var r := SaveRealValues(nodes);
    forall i | 0 <= i < |nodes|
      ensures r[i].neighborNodes == nodes[i].neighborNodes && r[i].resistors == nodes[i].resistors
      ensures r[i].currentSources == nodes[i].currentSources && r[i].voltageSources == nodes[i].voltageSources
    {
      assert r[i] == nodes[i].(realValue := nodes[i].value);
    }
  }
}
