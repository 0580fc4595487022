/**
 * The three ways `PDNContainer` perturbs the current sources
 * (src/pdn_container.cpp): scaling every source, connecting generated
 * sources to eligible nodes, and moving real sources to eligible nodes.
 * The random draws are parameters: `picks` are the indices the integer
 * distributions return, `fractions` the points in [0, 1) from which the
 * real distribution forms `lo + u * (hi - lo)`.
 */
module Perturbation {
  import opened Types
  import opened Strings
  import opened Resistors
  import opened CurrentSources
  import opened VoltageSources
  import opened Nodes
  import opened Graph

  // ---------------------------------------------------------------------
  // Scaling

  /** `changeCurrentSourceValue`: every source's value multiplied by `1 + delta`. */
  function ScaleSources(sources: seq<CurrentSource>, delta: real): (r: seq<CurrentSource>)
    ensures |r| == |sources|
  {
    seq(|sources|, i requires 0 <= i < |sources| =>
      sources[i].(value := sources[i].value * (1.0 + delta)))
  }

  /** Scaling changes nothing but values, and each value by the factor `1 + delta`. */
  lemma ScaleSourcesSpec(sources: seq<CurrentSource>, delta: real)
    ensures forall i :: 0 <= i < |sources| ==>
      ScaleSources(sources, delta)[i].value == (1.0 + delta) * sources[i].value &&
      ScaleSources(sources, delta)[i].(value := sources[i].value) == sources[i]
  {
  }

  /** The current a node draws from its sources scales by the same factor. */
  lemma {:induction false} ScaledCurrentSum(list: seq<nat>, sources: seq<CurrentSource>, delta: real)
    ensures CurrentSum(list, ScaleSources(sources, delta)) == (1.0 + delta) * CurrentSum(list, sources)
    decreases |list|
  {
    if list != [] {
      ScaledCurrentSum(list[..|list| - 1], sources, delta);
    }
  }

  /** Scaling touches no link, so a well-formed graph stays well-formed. */
  lemma ScaleKeepsWellFormed(p: PdnState, delta: real)
    requires WellFormed(p) && EdgesConsistent(p)
    ensures var q := p.(currentSources := ScaleSources(p.currentSources, delta));
            WellFormed(q) && EdgesConsistent(q)
  {
    var q := p.(currentSources := ScaleSources(p.currentSources, delta));
    assert forall j :: 0 <= j < |q.currentSources| ==>
      q.currentSources[j].connectedNode == p.currentSources[j].connectedNode;
  }

  // ---------------------------------------------------------------------
  // Candidates

  /** A node may take a generated or moved source: not yet touched, and on a layer-1 resistor. */
  predicate Eligible(n: Node)
  {
    !n.fakedByCurrentSource && n.ableToConnectCurrentSource
  }

  /** The eligible nodes among the first `n`, in arena order. */
  function EligibleUpTo(nodes: seq<Node>, n: nat): (r: seq<nat>)
    requires n <= |nodes|
    ensures |r| <= n
    ensures forall x :: x in r ==> x < n && Eligible(nodes[x])
    ensures forall i :: 0 <= i < n && Eligible(nodes[i]) ==> i in r
    ensures forall j, k :: 0 <= j < k < |r| ==> r[j] < r[k]
    decreases n
  {
    if n == 0 then []
    else
      var init := EligibleUpTo(nodes, n - 1);
      assert forall j :: 0 <= j < |init| ==> init[j] in init;
      init + (if Eligible(nodes[n - 1]) then [n - 1] else [])
  }

  /** The nodes that can take a source, in arena order. */
  function EligibleNodes(nodes: seq<Node>): (r: seq<nat>)
    ensures forall x :: x in r ==> x < |nodes| && Eligible(nodes[x])
    ensures forall i :: 0 <= i < |nodes| && Eligible(nodes[i]) ==> i in r
  {
    EligibleUpTo(nodes, |nodes|)
  }

  /** A source still sits on a node no perturbation has touched. */
  predicate OnRealNode(p: PdnState, i: nat)
  {
    i < |p.currentSources| && p.currentSources[i].connectedNode.Some? &&
    p.currentSources[i].connectedNode.value < |p.nodes| &&
    !p.nodes[p.currentSources[i].connectedNode.value].fakedByCurrentSource
  }

  /** A source sits on a node some perturbation has touched: it can never be moved again. */
  predicate OnFakedNode(p: PdnState, i: nat)
  {
    i < |p.currentSources| && p.currentSources[i].connectedNode.Some? &&
    p.currentSources[i].connectedNode.value < |p.nodes| &&
    p.nodes[p.currentSources[i].connectedNode.value].fakedByCurrentSource
  }

  /** The movable sources among the first `n`, in arena order. */
  function MovableUpTo(p: PdnState, n: nat): (r: seq<nat>)
    requires n <= |p.currentSources|
    ensures |r| <= n
    ensures forall x :: x in r ==> x < n && OnRealNode(p, x)
    ensures forall i :: 0 <= i < n && OnRealNode(p, i) ==> i in r
    ensures forall j, k :: 0 <= j < k < |r| ==> r[j] < r[k]
    decreases n
  {
    if n == 0 then []
    else
      var init := MovableUpTo(p, n - 1);
      assert forall j :: 0 <= j < |init| ==> init[j] in init;
      init + (if OnRealNode(p, n - 1) then [n - 1] else [])
  }

  /** The sources that can be moved, in arena order. */
  function MovableSources(p: PdnState): (r: seq<nat>)
    ensures forall x :: x in r ==> OnRealNode(p, x)
    ensures forall i :: 0 <= i < |p.currentSources| && OnRealNode(p, i) ==> i in r
  {
    MovableUpTo(p, |p.currentSources|)
  }

  // ---------------------------------------------------------------------
  // Value range

  /** `std::max` folded over the source values from 0. */
  function MaxValue(sources: seq<CurrentSource>): real
  {
    if sources == [] then 0.0
    else
      var m := MaxValue(sources[..|sources| - 1]);
      var v := sources[|sources| - 1].value;
      if m < v then v else m
  }

  /** `std::min` folded over the source values from 0. */
  function MinValue(sources: seq<CurrentSource>): real
  {
    if sources == [] then 0.0
    else
      var m := MinValue(sources[..|sources| - 1]);
      var v := sources[|sources| - 1].value;
      if v < m then v else m
  }

  /** The range starts at 0 on both ends and takes in every source value. */
  lemma {:induction false} ValueRange(sources: seq<CurrentSource>)
    ensures MinValue(sources) <= 0.0 <= MaxValue(sources)
    ensures forall i :: 0 <= i < |sources| ==> MinValue(sources) <= sources[i].value <= MaxValue(sources)
    decreases |sources|
  {
    if sources != [] {
      var init := sources[..|sources| - 1];
      ValueRange(init);
      assert forall i :: 0 <= i < |init| ==> sources[i] == init[i];
    }
  }

  /** What `uniform_real_distribution(lo, hi)` makes of the point `u`. */
  function DrawValue(lo: real, hi: real, u: real): real
  {
    lo + u * (hi - lo)
  }

  lemma DrawValueInRange(lo: real, hi: real, u: real)
    requires lo <= hi && 0.0 <= u < 1.0
    ensures lo <= DrawValue(lo, hi, u) <= hi
    ensures lo < hi ==> DrawValue(lo, hi, u) < hi
  {
    var d := hi - lo;
    NonNegativeProduct(u, d);
    NonNegativeProduct(1.0 - u, d);
    if lo < hi {
      PositiveProduct(1.0 - u, d);
    }
  }

  lemma NonNegativeProduct(a: real, b: real)
    requires 0.0 <= a && 0.0 <= b
    ensures 0.0 <= a * b
  {
  }

  lemma PositiveProduct(a: real, b: real)
    requires 0.0 < a && 0.0 < b
    ensures 0.0 < a * b
  {
  }

  // ---------------------------------------------------------------------
  // Counts

  /** `ceil`. */
  function Ceil(x: real): (c: int)
    ensures c as real - 1.0 < x <= c as real
  {
    -((-x).Floor)
  }

  /** `floor`. */
  function Floor(x: real): (f: int)
    ensures f as real <= x < f as real + 1.0
  {
    x.Floor
  }

  /**
   * How many draws `connectFakeCurrentSources` makes among `n` candidates:
   * `ceil(n * delta)` wherever its conversion to `uint64_t` is defined
   * (`ConnectDelta`); the clamp at 0 only covers products the callers exclude.
   */
  function ConnectCount(n: nat, delta: real): (c: nat)
    ensures -1.0 < n as real * delta ==> c == Ceil(n as real * delta)
  {
    var c := Ceil(n as real * delta);
    if c < 0 then 0 else c
  }

  /** How many moves `inverseCurrentSourcesPositions` makes among `n` movable sources. */
  function MoveCount(n: nat, delta: real): nat
    requires 0.0 <= delta
  {
    var f := Floor(n as real * delta);
    assert 0.0 <= n as real * delta;
    f
  }

  /**
   * `connectFakeCurrentSources` converts `ceil(n * delta)` to `uint64_t`
   * for its `n` eligible nodes; the conversion is defined when the product
   * is above -1, where `ceil` is 0 or more. With no eligible node the
   * product is 0 and only the values are scaled, by any `delta`.
   */
  predicate ConnectDelta(p: PdnState, delta: real)
  {
    -1.0 < |EligibleNodes(p.nodes)| as real * delta
  }

  /**
   * `inverseCurrentSourcesPositions` converts `floor(|movable| * delta)` to
   * `uint64_t` only when it can move, which is defined for `delta >= 0`;
   * otherwise its fallback's condition applies.
   */
  predicate InverseDelta(p: PdnState, delta: real)
  {
    if CanMove(p) then 0.0 <= delta else ConnectDelta(p, delta)
  }

  /** Among some candidates, a positive `delta` draws at least once and any other draws nothing. */
  lemma ConnectCountSign(n: nat, delta: real)
    requires 0 < n
    ensures 0.0 < delta ==> 1 <= ConnectCount(n, delta)
    ensures delta <= 0.0 ==> ConnectCount(n, delta) == 0
  {
    if 0.0 < delta {
      PositiveProduct(n as real, delta);
    } else {
      NonPositiveProduct(n as real, delta);
    }
  }

  lemma NonPositiveProduct(a: real, b: real)
    requires 0.0 <= a && b <= 0.0
    ensures a * b <= 0.0
  {
  }

  // ---------------------------------------------------------------------
  // `std::set<uint64_t, std::greater<uint64_t>>`

  predicate Descending(s: seq<nat>)
  {
    forall j, k :: 0 <= j < k < |s| ==> s[j] > s[k]
  }

  /** In a descending sequence everything after the head is below it. */
  lemma TailBelowHead(s: seq<nat>)
    requires Descending(s) && s != []
    ensures forall x :: x in s[1..] ==> x < s[0]
  {
    forall x | x in s[1..] ensures x < s[0] {
      var i :| 0 <= i < |s[1..]| && s[1..][i] == x;
      assert s[i + 1] == x;
    }
  }

  /** A head above every element of a descending tail keeps the sequence descending. */
  lemma ConsDescending(h: nat, t: seq<nat>)
    requires Descending(t) && forall x :: x in t ==> x < h
    ensures Descending([h] + t)
  {
    var r := [h] + t;
    forall j, k | 0 <= j < k < |r| ensures r[j] > r[k] {
      assert r[k] == t[k - 1] && t[k - 1] in t;
      if j > 0 {
        assert r[j] == t[j - 1];
      }
    }
  }

  /** `insert`: the set in iteration order, largest first. */
  function InsertDesc(s: seq<nat>, v: nat): (r: seq<nat>)
    requires Descending(s)
    ensures Descending(r)
    ensures forall x :: x in r <==> x in s || x == v
    ensures |r| <= |s| + 1
    decreases |s|
  {
    if s == [] then [v]
    else if v > s[0] then [v] + s
    else if v == s[0] then s
    else
      var t := InsertDesc(s[1..], v);
      TailBelowHead(s);
      ConsDescending(s[0], t);
      [s[0]] + t
  }

  /**
   * The set filled by inserting `cands[picks[i]]` for the first `count`
   * draws, in iteration order: each drawn candidate once, largest first.
   */
  function Drawn(cands: seq<nat>, picks: seq<nat>, count: nat): (r: seq<nat>)
    requires count <= |picks| && forall i :: 0 <= i < count ==> picks[i] < |cands|
    ensures Descending(r) && |r| <= count
    decreases count
  {
    if count == 0 then []
    else InsertDesc(Drawn(cands, picks, count - 1), cands[picks[count - 1]])
  }

  /** Every drawn candidate is in the set, and nothing but candidates is. */
  lemma {:induction false} DrawnMembers(cands: seq<nat>, picks: seq<nat>, count: nat)
    requires count <= |picks| && forall i :: 0 <= i < count ==> picks[i] < |cands|
    ensures forall i :: 0 <= i < count ==> cands[picks[i]] in Drawn(cands, picks, count)
    ensures forall x :: x in Drawn(cands, picks, count) ==> x in cands
    decreases count
  {
    if count > 0 {
      DrawnMembers(cands, picks, count - 1);
    }
  }

  /** One more draw inserts one more candidate. */
  lemma DrawnStep(cands: seq<nat>, picks: seq<nat>, count: nat)
    requires count < |picks| && forall i :: 0 <= i <= count ==> picks[i] < |cands|
    ensures Drawn(cands, picks, count + 1) == InsertDesc(Drawn(cands, picks, count), cands[picks[count]])
  {
  }

  /** Nothing enters the set but a drawn candidate. */
  lemma {:induction false} DrawnOnlyDrawn(cands: seq<nat>, picks: seq<nat>, count: nat, x: nat)
    requires count <= |picks| && forall i :: 0 <= i < count ==> picks[i] < |cands|
    requires x in Drawn(cands, picks, count)
    ensures exists i :: 0 <= i < count && x == cands[picks[i]]
    decreases count
  {
    if x != cands[picks[count - 1]] {
      DrawnOnlyDrawn(cands, picks, count - 1, x);
    }
  }

  /** With at least one draw the set is not empty. */
  lemma DrawnNonEmpty(cands: seq<nat>, picks: seq<nat>, count: nat)
    requires count <= |picks| && forall i :: 0 <= i < count ==> picks[i] < |cands|
    requires 0 < count
    ensures 0 < |Drawn(cands, picks, count)|
  {
    DrawnMembers(cands, picks, count);
    assert cands[picks[0]] in Drawn(cands, picks, count);
  }

  /** Repeated draws of the same candidate collapse: the set can be smaller than the draw count. */
  lemma RepeatedDrawShrinksSet()
    ensures Drawn([0, 1], [0, 0], 2) == [0]
  {
    assert Drawn([0, 1], [0, 0], 1) == [0];
  }

  // ---------------------------------------------------------------------
  // Connecting generated sources

  /** The name a generated source gets when the arena already holds `count` sources. */
  function FakeName(count: nat): (name: string)
    ensures |name| >= 2 && name[0] == 'I' && AllDigits(name[1..])
  {
    "I" + NatToString(count + 1)
  }

  /** Generated names differ whenever the arena sizes they were made at differ. */
  lemma FakeNamesDistinct(a: nat, b: nat)
    requires a != b
    ensures FakeName(a) != FakeName(b)
  {
    if FakeName(a) == FakeName(b) {
      assert FakeName(a)[1..] == NatToString(a + 1);
      assert FakeName(b)[1..] == NatToString(b + 1);
      NatToStringRoundTrip(a + 1);
      NatToStringRoundTrip(b + 1);
    }
  }

  /** The source generated for node `j`: at the node's coordinates, attached to it. */
  function FakeSource(p: PdnState, j: nat, value: real): CurrentSource
    requires j < |p.nodes|
  {
    NewCurrentSource(GetCoordinates(p.nodes[j]), value, FakeName(|p.currentSources|))
      .(connectedNode := Some(j))
  }

  /** One pass of the connect loop: a new source at the end of the arena, node `j` marked. */
  function PlaceFake(p: PdnState, j: nat, value: real): (r: PdnState)
    requires j < |p.nodes|
    ensures |r.nodes| == |p.nodes| && |r.currentSources| == |p.currentSources| + 1
  {
    var n := ConnectCurrentSource(p.nodes[j], |p.currentSources|)
      .(ableToConnectCurrentSource := false, fakedByCurrentSource := true);
    p.(nodes := p.nodes[j := n], currentSources := p.currentSources + [FakeSource(p, j, value)])
  }

  /** The connect loop over the drawn nodes, in the set's order, one value draw each. */
  function PlaceFakes(p: PdnState, targets: seq<nat>, lo: real, hi: real, fractions: seq<real>): (r: PdnState)
    requires |targets| <= |fractions|
    requires forall t :: 0 <= t < |targets| ==> targets[t] < |p.nodes|
    ensures |r.nodes| == |p.nodes| && |r.currentSources| == |p.currentSources| + |targets|
    decreases |targets|
  {
    if targets == [] then p
    else PlaceFakes(PlaceFake(p, targets[0], DrawValue(lo, hi, fractions[0])), targets[1..], lo, hi, fractions[1..])
  }

  /** The draws `connectFakeCurrentSources` needs: enough node picks and value fractions. */
  predicate ConnectDraws(p: PdnState, delta: real, picks: seq<nat>, fractions: seq<real>)
  {
    var cands := EligibleNodes(p.nodes);
    var total := ConnectCount(|cands|, delta);
    total <= |picks| && total <= |fractions| &&
    forall i :: 0 <= i < total ==> picks[i] < |cands|
  }

  /** The nodes `connectFakeCurrentSources` draws, largest index first. */
  function ConnectTargets(p: PdnState, delta: real, picks: seq<nat>): (targets: seq<nat>)
    requires var cands := EligibleNodes(p.nodes);
      ConnectCount(|cands|, delta) <= |picks| &&
      forall i :: 0 <= i < ConnectCount(|cands|, delta) ==> picks[i] < |cands|
    ensures Descending(targets)
    ensures forall t :: 0 <= t < |targets| ==> targets[t] < |p.nodes| && Eligible(p.nodes[targets[t]])
  {
    var cands := EligibleNodes(p.nodes);
    var r := Drawn(cands, picks, ConnectCount(|cands|, delta));
    DrawnMembers(cands, picks, ConnectCount(|cands|, delta));
    assert forall t :: 0 <= t < |r| ==> r[t] in cands;
    r
  }

  /**
   * `connectFakeCurrentSources`: with eligible nodes, generated sources on
   * the drawn ones, valued in the range of the existing sources; with none,
   * every source scaled by `1 + delta` instead.
   */
  function ConnectFake(p: PdnState, delta: real, picks: seq<nat>, fractions: seq<real>): (r: PdnState)
    requires ConnectDelta(p, delta) && ConnectDraws(p, delta, picks, fractions)
  {
    if |EligibleNodes(p.nodes)| > 0 then
      var targets := ConnectTargets(p, delta, picks);
      PlaceFakes(p, targets, MinValue(p.currentSources), MaxValue(p.currentSources), fractions)
    else
      p.(currentSources := ScaleSources(p.currentSources, delta))
  }

  predicate Distinct(s: seq<nat>)
  {
    forall a, b :: 0 <= a < b < |s| ==> s[a] != s[b]
  }

  lemma DescendingDistinct(s: seq<nat>)
    requires Descending(s)
    ensures Distinct(s)
  {
  }

  /** The connect loop leaves the other arenas and the existing sources alone. */
  lemma {:induction false} PlaceFakesFrame(p: PdnState, targets: seq<nat>, lo: real, hi: real, fractions: seq<real>)
    requires |targets| <= |fractions|
    requires forall t :: 0 <= t < |targets| ==> targets[t] < |p.nodes|
    ensures var q := PlaceFakes(p, targets, lo, hi, fractions);
      q.file == p.file && q.resistors == p.resistors &&
      q.voltageSources == p.voltageSources && q.supply == p.supply &&
      q.currentSources[..|p.currentSources|] == p.currentSources
    decreases |targets|
  {
    if targets != [] {
      var p1 := PlaceFake(p, targets[0], DrawValue(lo, hi, fractions[0]));
      PlaceFakesFrame(p1, targets[1..], lo, hi, fractions[1..]);
      var q := PlaceFakes(p1, targets[1..], lo, hi, fractions[1..]);
      assert q.currentSources[..|p.currentSources|] == q.currentSources[..|p1.currentSources|][..|p.currentSources|];
    }
  }

  /** The source generated for the target drawn `t`-th. */
  function FakeAt(p: PdnState, targets: seq<nat>, lo: real, hi: real, fractions: seq<real>, t: nat): CurrentSource
    requires t < |targets| <= |fractions| && targets[t] < |p.nodes|
  {
    NewCurrentSource(GetCoordinates(p.nodes[targets[t]]), DrawValue(lo, hi, fractions[t]),
      FakeName(|p.currentSources| + t)).(connectedNode := Some(targets[t]))
  }

  /** The arena gains the generated sources in the order the targets were drawn. */
  lemma {:induction false} PlaceFakesSources(p: PdnState, targets: seq<nat>, lo: real, hi: real, fractions: seq<real>, t: nat)
    requires |targets| <= |fractions|
    requires forall k :: 0 <= k < |targets| ==> targets[k] < |p.nodes|
    requires t < |targets|
    ensures PlaceFakes(p, targets, lo, hi, fractions).currentSources[|p.currentSources| + t] ==
      FakeAt(p, targets, lo, hi, fractions, t)
    decreases |targets|
  {
    var p1 := PlaceFake(p, targets[0], DrawValue(lo, hi, fractions[0]));
    var rest := targets[1..];
    if t == 0 {
      PlaceFakesFrame(p1, rest, lo, hi, fractions[1..]);
      var q := PlaceFakes(p1, rest, lo, hi, fractions[1..]);
      assert q.currentSources[|p.currentSources|] == q.currentSources[..|p1.currentSources|][|p.currentSources|];
    } else {
      PlaceFakesSources(p1, rest, lo, hi, fractions[1..], t - 1);
      assert GetCoordinates(p1.nodes[rest[t - 1]]) == GetCoordinates(p.nodes[targets[t]]);
      assert |p1.currentSources| + (t - 1) == |p.currentSources| + t;
    }
  }

  /** Nodes that were not drawn are left as they were. */
  lemma {:induction false} PlaceFakesUntouched(p: PdnState, targets: seq<nat>, lo: real, hi: real, fractions: seq<real>, j: nat)
    requires |targets| <= |fractions|
    requires forall t :: 0 <= t < |targets| ==> targets[t] < |p.nodes|
    requires j < |p.nodes| && j !in targets
    ensures PlaceFakes(p, targets, lo, hi, fractions).nodes[j] == p.nodes[j]
    decreases |targets|
  {
    if targets != [] {
      var p1 := PlaceFake(p, targets[0], DrawValue(lo, hi, fractions[0]));
      assert j !in targets[1..];
      PlaceFakesUntouched(p1, targets[1..], lo, hi, fractions[1..], j);
    }
  }

  /** Each drawn node lists its generated source last and is marked as faked. */
  lemma {:induction false} PlaceFakesTargets(p: PdnState, targets: seq<nat>, lo: real, hi: real, fractions: seq<real>, t: nat)
    requires |targets| <= |fractions| && Distinct(targets)
    requires forall k :: 0 <= k < |targets| ==> targets[k] < |p.nodes|
    requires t < |targets|
    ensures PlaceFakes(p, targets, lo, hi, fractions).nodes[targets[t]] ==
      ConnectCurrentSource(p.nodes[targets[t]], |p.currentSources| + t)
        .(ableToConnectCurrentSource := false, fakedByCurrentSource := true)
    decreases |targets|
  {
    var p1 := PlaceFake(p, targets[0], DrawValue(lo, hi, fractions[0]));
    var rest := targets[1..];
    if t == 0 {
      assert targets[0] !in rest;
      PlaceFakesUntouched(p1, rest, lo, hi, fractions[1..], targets[0]);
    } else {
      assert Distinct(rest);
      PlaceFakesTargets(p1, rest, lo, hi, fractions[1..], t - 1);
      assert rest[t - 1] == targets[t] != targets[0];
    }
  }

  /** One pass of the connect loop keeps every link in range and every edge consistent. */
  lemma PlaceFakeWellFormed(p: PdnState, j: nat, value: real)
    requires WellFormed(p) && EdgesConsistent(p) && j < |p.nodes|
    ensures WellFormed(PlaceFake(p, j, value)) && EdgesConsistent(PlaceFake(p, j, value))
  {
    var r := PlaceFake(p, j, value);
    forall i | 0 <= i < |r.nodes|
      ensures NodeLinksBelow(r.nodes[i], |r.nodes|, |r.resistors|, |r.currentSources|, |r.voltageSources|)
    {
      assert NodeLinksBelow(p.nodes[i], |p.nodes|, |p.resistors|, |p.currentSources|, |p.voltageSources|);
    }
    assert forall i :: 0 <= i < |r.nodes| ==>
      r.nodes[i].resistors == p.nodes[i].resistors && r.nodes[i].neighborNodes == p.nodes[i].neighborNodes;
  }

  lemma {:induction false} PlaceFakesWellFormed(p: PdnState, targets: seq<nat>, lo: real, hi: real, fractions: seq<real>)
    requires WellFormed(p) && EdgesConsistent(p)
    requires |targets| <= |fractions|
    requires forall t :: 0 <= t < |targets| ==> targets[t] < |p.nodes|
    ensures WellFormed(PlaceFakes(p, targets, lo, hi, fractions))
    ensures EdgesConsistent(PlaceFakes(p, targets, lo, hi, fractions))
    decreases |targets|
  {
    if targets != [] {
      var p1 := PlaceFake(p, targets[0], DrawValue(lo, hi, fractions[0]));
      PlaceFakeWellFormed(p, targets[0], DrawValue(lo, hi, fractions[0]));
      PlaceFakesWellFormed(p1, targets[1..], lo, hi, fractions[1..]);
    }
  }

  /** With no eligible node, only the source values change, each by the factor `1 + delta`. */
  lemma ConnectFakeFallback(p: PdnState, delta: real, picks: seq<nat>, fractions: seq<real>)
    requires ConnectDelta(p, delta) && ConnectDraws(p, delta, picks, fractions)
    requires |EligibleNodes(p.nodes)| == 0
    ensures var r := ConnectFake(p, delta, picks, fractions);
      r.nodes == p.nodes && r.resistors == p.resistors && r.voltageSources == p.voltageSources &&
      |r.currentSources| == |p.currentSources| &&
      forall i :: 0 <= i < |p.currentSources| ==>
        r.currentSources[i].value == (1.0 + delta) * p.currentSources[i].value &&
        r.currentSources[i].(value := p.currentSources[i].value) == p.currentSources[i]
  {
    ScaleSourcesSpec(p.currentSources, delta);
  }

  /**
   * With eligible nodes, the existing sources stay, and one source per
   * drawn node is appended: at least one when `delta` is positive, none
   * when it is zero or negative, and never more than the number of draws.
   */
  lemma ConnectFakeCount(p: PdnState, delta: real, picks: seq<nat>, fractions: seq<real>)
    requires ConnectDelta(p, delta) && ConnectDraws(p, delta, picks, fractions)
    requires |EligibleNodes(p.nodes)| > 0
    ensures var r := ConnectFake(p, delta, picks, fractions);
      var added := |ConnectTargets(p, delta, picks)|;
      |r.nodes| == |p.nodes| && r.resistors == p.resistors && r.voltageSources == p.voltageSources &&
      r.currentSources[..|p.currentSources|] == p.currentSources &&
      |r.currentSources| == |p.currentSources| + added &&
      added <= ConnectCount(|EligibleNodes(p.nodes)|, delta) &&
      (0.0 < delta ==> 1 <= added) && (delta <= 0.0 ==> added == 0)
  {
    var cands := EligibleNodes(p.nodes);
    var total := ConnectCount(|cands|, delta);
    var targets := ConnectTargets(p, delta, picks);
    PlaceFakesFrame(p, targets, MinValue(p.currentSources), MaxValue(p.currentSources), fractions);
    ConnectCountSign(|cands|, delta);
    if 0.0 < delta {
      DrawnNonEmpty(cands, picks, total);
    }
  }

  /**
   * The `t`-th generated source: attached to a node that was eligible,
   * at that node's coordinates, named after the arena size, valued inside
   * the range of the existing values; the node now lists it last and is
   * marked as faked and no longer able to take a source.
   */
  lemma ConnectFakeSource(p: PdnState, delta: real, picks: seq<nat>, fractions: seq<real>, t: nat)
    requires ConnectDelta(p, delta) && ConnectDraws(p, delta, picks, fractions)
    requires |EligibleNodes(p.nodes)| > 0 && t < |ConnectTargets(p, delta, picks)|
    ensures var r := ConnectFake(p, delta, picks, fractions);
      var j := ConnectTargets(p, delta, picks)[t];
      var s := r.currentSources[|p.currentSources| + t];
      j < |p.nodes| && Eligible(p.nodes[j]) &&
      s.connectedNode == Some(j) && s.name == FakeName(|p.currentSources| + t) &&
      CurrentSources.Coords(s) == NodeCoords(GetCoordinates(p.nodes[j]).layer % 0x100,
        GetCoordinates(p.nodes[j]).x, GetCoordinates(p.nodes[j]).y) &&
      ((forall i :: 0 <= i < |fractions| ==> 0.0 <= fractions[i] < 1.0) ==>
        MinValue(p.currentSources) <= s.value <= MaxValue(p.currentSources)) &&
      r.nodes[j] == ConnectCurrentSource(p.nodes[j], |p.currentSources| + t)
        .(ableToConnectCurrentSource := false, fakedByCurrentSource := true)
  {
    var targets := ConnectTargets(p, delta, picks);
    var lo, hi := MinValue(p.currentSources), MaxValue(p.currentSources);
    DescendingDistinct(targets);
    PlaceFakesSources(p, targets, lo, hi, fractions, t);
    PlaceFakesTargets(p, targets, lo, hi, fractions, t);
    ValueRange(p.currentSources);
    if forall i :: 0 <= i < |fractions| ==> 0.0 <= fractions[i] < 1.0 {
      DrawValueInRange(lo, hi, fractions[t]);
    }
  }

  /** A node stays out of the generated sources' reach exactly when it was not drawn. */
  lemma ConnectFakeUntouched(p: PdnState, delta: real, picks: seq<nat>, fractions: seq<real>, j: nat)
    requires ConnectDelta(p, delta) && ConnectDraws(p, delta, picks, fractions)
    requires j < |p.nodes| && j !in ConnectTargets(p, delta, picks)
    ensures ConnectFake(p, delta, picks, fractions).nodes[j] == p.nodes[j]
  {
    if |EligibleNodes(p.nodes)| > 0 {
      PlaceFakesUntouched(p, ConnectTargets(p, delta, picks),
        MinValue(p.currentSources), MaxValue(p.currentSources), fractions, j);
    }
  }

  /** Connecting generated sources keeps every link in range and every edge consistent. */
  lemma ConnectFakeWellFormed(p: PdnState, delta: real, picks: seq<nat>, fractions: seq<real>)
    requires WellFormed(p) && EdgesConsistent(p)
    requires ConnectDelta(p, delta) && ConnectDraws(p, delta, picks, fractions)
    ensures WellFormed(ConnectFake(p, delta, picks, fractions))
    ensures EdgesConsistent(ConnectFake(p, delta, picks, fractions))
  {
    if |EligibleNodes(p.nodes)| > 0 {
      PlaceFakesWellFormed(p, ConnectTargets(p, delta, picks),
        MinValue(p.currentSources), MaxValue(p.currentSources), fractions);
    }
  }

  // ---------------------------------------------------------------------
  // Moving real sources

  /** Every source has a node in range and every node's source list points into the arena. */
  predicate SourceLinksOk(p: PdnState)
  {
    (forall j :: 0 <= j < |p.currentSources| ==> Attached(p.currentSources[j].connectedNode, |p.nodes|)) &&
    (forall i :: 0 <= i < |p.nodes| ==> Below(p.nodes[i].currentSources, |p.currentSources|))
  }

  /**
   * Node `b` is node `a` with at most its current-source list and its two
   * current-source marks changed, and a faked `a` is still faked.
   */
  predicate SourceMarksOnly(a: Node, b: Node)
  {
    b == a.(currentSources := b.currentSources, ableToConnectCurrentSource := b.ableToConnectCurrentSource,
      fakedByCurrentSource := b.fakedByCurrentSource) &&
    (a.fakedByCurrentSource ==> b.fakedByCurrentSource)
  }

  lemma SourceMarksOnlyTrans(a: Node, b: Node, c: Node)
    requires SourceMarksOnly(a, b) && SourceMarksOnly(b, c)
    ensures SourceMarksOnly(a, c)
  {
  }

  lemma SourceLinksOfWellFormed(p: PdnState)
    requires WellFormed(p)
    ensures SourceLinksOk(p)
  {
    forall i | 0 <= i < |p.nodes| ensures Below(p.nodes[i].currentSources, |p.currentSources|) {
      assert NodeLinksBelow(p.nodes[i], |p.nodes|, |p.resistors|, |p.currentSources|, |p.voltageSources|);
    }
  }

  /**
   * One pass of the move loop: source `d` leaves its node (erased there by
   * name; the node is marked as able and faked), is renamed with `_new`,
   * takes node `c`'s coordinates and is connected to `c`, which is then
   * marked as not able and faked. The two node updates happen in that
   * order, so `c` may be the node the source left.
   */
  function MoveOne(p: PdnState, d: nat, c: nat): (r: PdnState)
    requires SourceLinksOk(p) && d < |p.currentSources| && c < |p.nodes|
    ensures |r.nodes| == |p.nodes| && |r.currentSources| == |p.currentSources|
  {
    p.(nodes := Arrive(Leave(p, d), d, c), currentSources := p.currentSources[d := Moved(p, d, c)])
  }

  /** The node arena after source `d` is erased, by name, from the node it sits on. */
  function Leave(p: PdnState, d: nat): (nodes: seq<Node>)
    requires SourceLinksOk(p) && d < |p.currentSources|
    ensures |nodes| == |p.nodes|
  {
    var s := p.currentSources[d];
    var o := s.connectedNode.value;
    p.nodes[o := p.nodes[o].(
      currentSources := RemoveFirstNamed(p.nodes[o].currentSources, CurrentSourceNames(p.currentSources), s.name),
      ableToConnectCurrentSource := true, fakedByCurrentSource := true)]
  }

  /** The node arena after source `d` is connected to node `c`. */
  function Arrive(nodes: seq<Node>, d: nat, c: nat): (r: seq<Node>)
    requires c < |nodes|
    ensures |r| == |nodes|
  {
    nodes[c := ConnectCurrentSource(nodes[c], d)
      .(ableToConnectCurrentSource := false, fakedByCurrentSource := true)]
  }

  /** Source `d` as the move leaves it: attached to `c`, renamed, at `c`'s coordinates. */
  function Moved(p: PdnState, d: nat, c: nat): CurrentSource
    requires d < |p.currentSources| && c < |p.nodes|
  {
    var s := p.currentSources[d];
    SetNewCoords(s.(connectedNode := Some(c), name := s.name + "_new"), GetCoordinates(p.nodes[c]))
  }

  /** One move keeps the source links in range. */
  lemma MoveOneLinks(p: PdnState, d: nat, c: nat)
    requires SourceLinksOk(p) && d < |p.currentSources| && c < |p.nodes|
    ensures SourceLinksOk(MoveOne(p, d, c))
  {
  }

  /** One move leaves the other arenas alone. */
  lemma MoveOneArenas(p: PdnState, d: nat, c: nat)
    requires SourceLinksOk(p) && d < |p.currentSources| && c < |p.nodes|
    ensures var r := MoveOne(p, d, c); r == p.(nodes := r.nodes, currentSources := r.currentSources)
  {
  }

  /** One move changes node `j` at most in its current sources and their marks, and a faked node stays faked. */
  lemma MoveOneKeepsNode(p: PdnState, d: nat, c: nat, j: nat)
    requires SourceLinksOk(p) && d < |p.currentSources| && c < |p.nodes| && j < |p.nodes|
    ensures SourceMarksOnly(p.nodes[j], MoveOne(p, d, c).nodes[j])
  {
  }

  /**
   * What one move does to the sources: `d` is re-attached to `c`, renamed
   * and re-positioned with its value kept; every other source is as it was.
   */
  lemma MoveOneSources(p: PdnState, d: nat, c: nat)
    requires SourceLinksOk(p) && d < |p.currentSources| && c < |p.nodes|
    ensures var r := MoveOne(p, d, c);
      var s := r.currentSources[d];
      s.connectedNode == Some(c) && s.name == p.currentSources[d].name + "_new" &&
      s.value == p.currentSources[d].value &&
      CurrentSources.Coords(s) == NodeCoords(GetCoordinates(p.nodes[c]).layer % 0x100,
        GetCoordinates(p.nodes[c]).x, GetCoordinates(p.nodes[c]).y) &&
      forall e :: 0 <= e < |p.currentSources| && e != d ==> r.currentSources[e] == p.currentSources[e]
  {
  }

  /**
   * What one move does to the nodes: `c` lists `d` last and is marked as
   * faked and not able; the node `d` left, when it is not `c`, loses the
   * first entry carrying `d`'s name and is marked as faked and able; no
   * other node changes.
   */
  lemma MoveOneNodes(p: PdnState, d: nat, c: nat)
    requires SourceLinksOk(p) && d < |p.currentSources| && c < |p.nodes|
    ensures var r := MoveOne(p, d, c);
      var o := p.currentSources[d].connectedNode.value;
      var names := CurrentSourceNames(p.currentSources);
      o < |p.nodes| && IndexesInto(p.nodes[o].currentSources, names) &&
      |r.nodes[c].currentSources| > 0 && r.nodes[c].currentSources[|r.nodes[c].currentSources| - 1] == d &&
      r.nodes[c].fakedByCurrentSource && !r.nodes[c].ableToConnectCurrentSource &&
      (o != c ==> r.nodes[o] == p.nodes[o].(
        currentSources := RemoveFirstNamed(p.nodes[o].currentSources, names, p.currentSources[d].name),
        ableToConnectCurrentSource := true, fakedByCurrentSource := true)) &&
      (o != c ==> r.nodes[c] == ConnectCurrentSource(p.nodes[c], d)
        .(ableToConnectCurrentSource := false, fakedByCurrentSource := true)) &&
      forall j :: 0 <= j < |p.nodes| && j != o && j != c ==> r.nodes[j] == p.nodes[j]
  {
  }

  /** Both ends of one move are faked afterwards. */
  lemma MoveOneFaked(p: PdnState, d: nat, c: nat)
    requires SourceLinksOk(p) && d < |p.currentSources| && c < |p.nodes|
    ensures var r := MoveOne(p, d, c);
      var o := p.currentSources[d].connectedNode.value;
      o < |r.nodes| && r.nodes[o].fakedByCurrentSource && r.nodes[c].fakedByCurrentSource
  {
  }

  /** The move pairs from position `i` up to `k` index sources below `sourceCount` and nodes below `nodeCount`. */
  predicate PairsInRange(nodeCount: nat, sourceCount: nat, ds: seq<nat>, cs: seq<nat>, k: nat)
  {
    k <= |ds| && k <= |cs| &&
    forall t :: 0 <= t < k ==> ds[t] < sourceCount && cs[t] < nodeCount
  }

  /** The move loop from pass `i` to pass `k`, pairing the two sets in iteration order. */
  function MoveFrom(p: PdnState, ds: seq<nat>, cs: seq<nat>, i: nat, k: nat): (r: PdnState)
    requires SourceLinksOk(p) && PairsInRange(|p.nodes|, |p.currentSources|, ds, cs, k)
    ensures |r.nodes| == |p.nodes| && |r.currentSources| == |p.currentSources|
    decreases k - i
  {
    if k <= i then p
    else
      MoveOneLinks(p, ds[i], cs[i]);
      MoveFrom(MoveOne(p, ds[i], cs[i]), ds, cs, i + 1, k)
  }

  /** One pass of the loop, unfolded. */
  lemma MoveFromStep(p: PdnState, ds: seq<nat>, cs: seq<nat>, i: nat, k: nat)
    requires SourceLinksOk(p) && PairsInRange(|p.nodes|, |p.currentSources|, ds, cs, k) && i < k
    ensures SourceLinksOk(MoveOne(p, ds[i], cs[i]))
    ensures MoveFrom(p, ds, cs, i, k) == MoveFrom(MoveOne(p, ds[i], cs[i]), ds, cs, i + 1, k)
  {
    MoveOneLinks(p, ds[i], cs[i]);
  }

  /** The first `i` passes of the move loop, each applied to the state the one before left. */
  function MoveTo(p: PdnState, ds: seq<nat>, cs: seq<nat>, i: nat): (r: PdnState)
    requires SourceLinksOk(p) && PairsInRange(|p.nodes|, |p.currentSources|, ds, cs, i)
    ensures SourceLinksOk(r) && |r.nodes| == |p.nodes| && |r.currentSources| == |p.currentSources|
  {
    if i == 0 then p
    else
      var q := MoveTo(p, ds, cs, i - 1);
      MoveOneLinks(q, ds[i - 1], cs[i - 1]);
      MoveOne(q, ds[i - 1], cs[i - 1])
  }

  /** Running the passes from `i` on after the first `i` is running the first `k`. */
  lemma {:induction false} MoveFromTo(p: PdnState, ds: seq<nat>, cs: seq<nat>, i: nat, k: nat)
    requires SourceLinksOk(p) && PairsInRange(|p.nodes|, |p.currentSources|, ds, cs, k) && i <= k
    ensures MoveFrom(MoveTo(p, ds, cs, i), ds, cs, i, k) == MoveTo(p, ds, cs, k)
    decreases k - i
  {
    if i < k {
      MoveFromStep(MoveTo(p, ds, cs, i), ds, cs, i, k);
      MoveFromTo(p, ds, cs, i + 1, k);
    }
  }

  /**
   * `states` holds the state before each pass of the move loop and the
   * state after the last one: each is one move on the one before.
   */
  predicate MoveTrace(p: PdnState, states: seq<PdnState>, ds: seq<nat>, cs: seq<nat>, k: nat)
  {
    PairsInRange(|p.nodes|, |p.currentSources|, ds, cs, k) && |states| == k + 1 && states[0] == p &&
    (forall t :: 0 <= t <= k ==>
      SourceLinksOk(states[t]) && |states[t].nodes| == |p.nodes| && |states[t].currentSources| == |p.currentSources|) &&
    forall t {:trigger MoveOne(states[t], ds[t], cs[t])} :: 0 <= t < k ==>
      states[t + 1] == MoveOne(states[t], ds[t], cs[t])
  }

  /** The states the move loop passes through; the last is what the loop leaves. */
  lemma MoveTraceOf(p: PdnState, ds: seq<nat>, cs: seq<nat>, k: nat) returns (states: seq<PdnState>)
    requires SourceLinksOk(p) && PairsInRange(|p.nodes|, |p.currentSources|, ds, cs, k)
    ensures MoveTrace(p, states, ds, cs, k) && states[k] == MoveFrom(p, ds, cs, 0, k)
  {
    states := seq(k + 1, t requires 0 <= t <= k => MoveTo(p, ds, cs, t));
    forall t | 0 <= t < k
      ensures states[t + 1] == MoveOne(states[t], ds[t], cs[t])
    {
      assert states[t + 1] == MoveTo(p, ds, cs, t + 1);
    }
    MoveFromTo(p, ds, cs, 0, k);
  }

  /** The move loop leaves the other arenas alone. */
  lemma {:induction false} MoveFromArenas(p: PdnState, ds: seq<nat>, cs: seq<nat>, i: nat, k: nat)
    requires SourceLinksOk(p) && PairsInRange(|p.nodes|, |p.currentSources|, ds, cs, k)
    ensures var q := MoveFrom(p, ds, cs, i, k); q == p.(nodes := q.nodes, currentSources := q.currentSources)
    decreases k - i
  {
    if i < k {
      MoveFromStep(p, ds, cs, i, k);
      MoveOneArenas(p, ds[i], cs[i]);
      MoveFromArenas(MoveOne(p, ds[i], cs[i]), ds, cs, i + 1, k);
    }
  }

  /** The move loop changes every node at most in its current sources and their marks, and faked nodes stay faked. */
  lemma {:induction false} MoveFromKeepsNode(p: PdnState, ds: seq<nat>, cs: seq<nat>, i: nat, k: nat, j: nat)
    requires SourceLinksOk(p) && PairsInRange(|p.nodes|, |p.currentSources|, ds, cs, k) && j < |p.nodes|
    ensures SourceMarksOnly(p.nodes[j], MoveFrom(p, ds, cs, i, k).nodes[j])
    decreases k - i
  {
    if i < k {
      var p1 := MoveOne(p, ds[i], cs[i]);
      MoveFromStep(p, ds, cs, i, k);
      MoveOneKeepsNode(p, ds[i], cs[i], j);
      MoveFromKeepsNode(p1, ds, cs, i + 1, k, j);
      SourceMarksOnlyTrans(p.nodes[j], p1.nodes[j], MoveFrom(p1, ds, cs, i + 1, k).nodes[j]);
    }
  }

  /** The move loop keeps the source links in range. */
  lemma {:induction false} MoveFromLinks(p: PdnState, ds: seq<nat>, cs: seq<nat>, i: nat, k: nat)
    requires SourceLinksOk(p) && PairsInRange(|p.nodes|, |p.currentSources|, ds, cs, k)
    ensures SourceLinksOk(MoveFrom(p, ds, cs, i, k))
    decreases k - i
  {
    if i < k {
      MoveFromStep(p, ds, cs, i, k);
      MoveFromLinks(MoveOne(p, ds[i], cs[i]), ds, cs, i + 1, k);
    }
  }

  /** The move loop keeps every link in range and every edge consistent. */
  lemma MoveFromEdges(p: PdnState, ds: seq<nat>, cs: seq<nat>, i: nat, k: nat)
    requires WellFormed(p) && EdgesConsistent(p) && PairsInRange(|p.nodes|, |p.currentSources|, ds, cs, k)
    ensures SourceLinksOk(p) && WellFormed(MoveFrom(p, ds, cs, i, k))
    ensures EdgesConsistent(MoveFrom(p, ds, cs, i, k))
  {
    SourceLinksOfWellFormed(p);
    var q := MoveFrom(p, ds, cs, i, k);
    MoveFromLinks(p, ds, cs, i, k);
    MoveFromArenas(p, ds, cs, i, k);
    forall j | 0 <= j < |q.nodes|
      ensures NodeLinksBelow(q.nodes[j], |q.nodes|, |q.resistors|, |q.currentSources|, |q.voltageSources|)
      ensures q.nodes[j].resistors == p.nodes[j].resistors
      ensures q.nodes[j].neighborNodes == p.nodes[j].neighborNodes
    {
      MoveFromKeepsNode(p, ds, cs, i, k, j);
      assert NodeLinksBelow(p.nodes[j], |p.nodes|, |p.resistors|, |p.currentSources|, |p.voltageSources|);
    }
  }

  /** A source that is not drawn for any of the passes is left as it was. */
  lemma {:induction false} MoveFromUntouched(p: PdnState, ds: seq<nat>, cs: seq<nat>, i: nat, k: nat, e: nat)
    requires SourceLinksOk(p) && PairsInRange(|p.nodes|, |p.currentSources|, ds, cs, k)
    requires e < |p.currentSources| && forall t :: i <= t < k ==> ds[t] != e
    ensures MoveFrom(p, ds, cs, i, k).currentSources[e] == p.currentSources[e]
    decreases k - i
  {
    if i < k {
      MoveFromStep(p, ds, cs, i, k);
      MoveOneSources(p, ds[i], cs[i]);
      MoveFromUntouched(MoveOne(p, ds[i], cs[i]), ds, cs, i + 1, k, e);
    }
  }

  /**
   * The source drawn for pass `t` ends re-attached to the node drawn for
   * that pass, renamed and re-positioned once: no other pass touches it,
   * because the drawn sources are distinct.
   */
  lemma {:induction false} MoveFromMoved(p: PdnState, ds: seq<nat>, cs: seq<nat>, i: nat, k: nat, t: nat)
    requires SourceLinksOk(p) && PairsInRange(|p.nodes|, |p.currentSources|, ds, cs, k) && Distinct(ds)
    requires i <= t < k
    ensures MoveFrom(p, ds, cs, i, k).currentSources[ds[t]] == Moved(p, ds[t], cs[t])
    decreases k - i
  {
    var p1 := MoveOne(p, ds[i], cs[i]);
    MoveFromStep(p, ds, cs, i, k);
    MoveOneSources(p, ds[i], cs[i]);
    if t == i {
      MoveFromUntouched(p1, ds, cs, i + 1, k, ds[i]);
    } else {
      MoveFromMoved(p1, ds, cs, i + 1, k, t);
      MoveOneKeepsNode(p, ds[i], cs[i], cs[t]);
      assert ds[t] != ds[i];
    }
  }

  /** The node drawn for pass `t` ends up faked. */
  lemma {:induction false} MoveFromTargetFaked(p: PdnState, ds: seq<nat>, cs: seq<nat>, i: nat, k: nat, t: nat)
    requires SourceLinksOk(p) && PairsInRange(|p.nodes|, |p.currentSources|, ds, cs, k)
    requires i <= t < k
    ensures MoveFrom(p, ds, cs, i, k).nodes[cs[t]].fakedByCurrentSource
    decreases k - i
  {
    var p1 := MoveOne(p, ds[i], cs[i]);
    MoveFromStep(p, ds, cs, i, k);
    if t == i {
      MoveOneFaked(p, ds[i], cs[i]);
      MoveFromKeepsNode(p1, ds, cs, i + 1, k, cs[i]);
    } else {
      MoveFromTargetFaked(p1, ds, cs, i + 1, k, t);
    }
  }

  /** The node the source drawn for pass `t` sat on before the loop ends up faked. */
  lemma {:induction false} MoveFromOriginFaked(p: PdnState, ds: seq<nat>, cs: seq<nat>, i: nat, k: nat, t: nat)
    requires SourceLinksOk(p) && PairsInRange(|p.nodes|, |p.currentSources|, ds, cs, k) && Distinct(ds)
    requires i <= t < k
    ensures var o := p.currentSources[ds[t]].connectedNode.value;
      o < |p.nodes| && MoveFrom(p, ds, cs, i, k).nodes[o].fakedByCurrentSource
    decreases k - i
  {
    var p1 := MoveOne(p, ds[i], cs[i]);
    MoveFromStep(p, ds, cs, i, k);
    var o := p.currentSources[ds[t]].connectedNode.value;
    if t == i {
      MoveOneFaked(p, ds[i], cs[i]);
      MoveFromKeepsNode(p1, ds, cs, i + 1, k, o);
    } else {
      assert ds[t] != ds[i];
      MoveOneSources(p, ds[i], cs[i]);
      MoveFromOriginFaked(p1, ds, cs, i + 1, k, t);
    }
  }

  /** `std::min`. */
  function Min(a: nat, b: nat): (m: nat)
    ensures m <= a && m <= b && (m == a || m == b)
  {
    if a < b then a else b
  }

  /** The draws `inverseCurrentSourcesPositions` needs: enough picks in range for both sets, or for its fallback. */
  predicate InverseDraws(p: PdnState, delta: real, picksD: seq<nat>, picksC: seq<nat>, fractions: seq<real>)
    requires InverseDelta(p, delta)
  {
    var movable := MovableSources(p);
    var eligible := EligibleNodes(p.nodes);
    if |movable| > 0 && |eligible| > 0 then
      var total := MoveCount(|movable|, delta);
      total <= |picksD| && total <= |picksC| &&
      (forall i :: 0 <= i < total ==> picksD[i] < |movable|) &&
      (forall i :: 0 <= i < total ==> picksC[i] < |eligible|)
    else
      ConnectDraws(p, delta, picksC, fractions)
  }

  /** Both candidate lists are non-empty, so the loop moves sources instead of falling back. */
  predicate CanMove(p: PdnState)
  {
    |MovableSources(p)| > 0 && |EligibleNodes(p.nodes)| > 0
  }

  /** The drawn sources to move, largest index first. */
  function SourcesToMove(p: PdnState, delta: real, picksD: seq<nat>): (ds: seq<nat>)
    requires 0.0 <= delta
    requires var movable := MovableSources(p);
      MoveCount(|movable|, delta) <= |picksD| &&
      forall i :: 0 <= i < MoveCount(|movable|, delta) ==> picksD[i] < |movable|
    ensures Descending(ds) && |ds| <= MoveCount(|MovableSources(p)|, delta)
    ensures forall t :: 0 <= t < |ds| ==> ds[t] < |p.currentSources| && OnRealNode(p, ds[t])
  {
    var movable := MovableSources(p);
    var r := Drawn(movable, picksD, MoveCount(|movable|, delta));
    DrawnMembers(movable, picksD, MoveCount(|movable|, delta));
    assert forall t :: 0 <= t < |r| ==> r[t] in movable;
    r
  }

  /** The drawn nodes to move them to, largest index first. */
  function NodesToFill(p: PdnState, delta: real, picksC: seq<nat>): (cs: seq<nat>)
    requires 0.0 <= delta
    requires var eligible := EligibleNodes(p.nodes);
      MoveCount(|MovableSources(p)|, delta) <= |picksC| &&
      forall i :: 0 <= i < MoveCount(|MovableSources(p)|, delta) ==> picksC[i] < |eligible|
    ensures Descending(cs) && |cs| <= MoveCount(|MovableSources(p)|, delta)
    ensures forall t :: 0 <= t < |cs| ==> cs[t] < |p.nodes| && Eligible(p.nodes[cs[t]])
  {
    var eligible := EligibleNodes(p.nodes);
    var r := Drawn(eligible, picksC, MoveCount(|MovableSources(p)|, delta));
    DrawnMembers(eligible, picksC, MoveCount(|MovableSources(p)|, delta));
    assert forall t :: 0 <= t < |r| ==> r[t] in eligible;
    r
  }

  /** How many pairs the corrected loop moves: as many as the shorter set holds. */
  function MovesMade(p: PdnState, delta: real, picksD: seq<nat>, picksC: seq<nat>, fractions: seq<real>): nat
    requires InverseDelta(p, delta) && InverseDraws(p, delta, picksD, picksC, fractions) && CanMove(p)
  {
    Min(|SourcesToMove(p, delta, picksD)|, |NodesToFill(p, delta, picksC)|)
  }

  /**
   * `inverseCurrentSourcesPositions` with the loop bounded by the sets it
   * walks: the drawn sources move to the drawn nodes pair by pair, as
   * many pairs as the shorter set holds; with no movable source or no
   * eligible node, generated sources are connected instead.
   */
  function Inverse(p: PdnState, delta: real, picksD: seq<nat>, picksC: seq<nat>, fractions: seq<real>): (r: PdnState)
    requires SourceLinksOk(p) && InverseDelta(p, delta) && InverseDraws(p, delta, picksD, picksC, fractions)
  {
    if CanMove(p) then
      MoveFrom(p, SourcesToMove(p, delta, picksD), NodesToFill(p, delta, picksC),
        0, MovesMade(p, delta, picksD, picksC, fractions))
    else
      ConnectFake(p, delta, picksC, fractions)
  }

  /**
   * What the loop as written needs to stay inside the sets: it advances
   * both iterators `floor(|movable| * delta)` times, so both sets must hold
   * that many members; repeated draws leave them shorter.
   */
  predicate SetsHoldTotal(p: PdnState, delta: real, picksD: seq<nat>, picksC: seq<nat>, fractions: seq<real>)
    requires InverseDelta(p, delta) && InverseDraws(p, delta, picksD, picksC, fractions) && CanMove(p)
  {
    var total := MoveCount(|MovableSources(p)|, delta);
    |SourcesToMove(p, delta, picksD)| == total && |NodesToFill(p, delta, picksC)| == total
  }

  /** `inverseCurrentSourcesPositions` as written: `floor(|movable| * delta)` passes of the move loop. */
  function InverseAsWritten(p: PdnState, delta: real, picksD: seq<nat>, picksC: seq<nat>, fractions: seq<real>): (r: PdnState)
    requires SourceLinksOk(p) && InverseDelta(p, delta) && InverseDraws(p, delta, picksD, picksC, fractions)
    requires CanMove(p) ==> SetsHoldTotal(p, delta, picksD, picksC, fractions)
    ensures r == Inverse(p, delta, picksD, picksC, fractions)
  {
    if CanMove(p) then
      MoveFrom(p, SourcesToMove(p, delta, picksD), NodesToFill(p, delta, picksC),
        0, MoveCount(|MovableSources(p)|, delta))
    else
      ConnectFake(p, delta, picksC, fractions)
  }

  /**
   * Two movable sources, `delta = 1` and the same source drawn twice: the
   * loop makes two passes over a set with one member, so its second pass
   * reads past the end of the set.
   */
  lemma InverseOverrunsSet(p: PdnState, picksC: seq<nat>)
    requires |MovableSources(p)| == 2 && |EligibleNodes(p.nodes)| > 0
    requires 2 <= |picksC| && picksC[0] < |EligibleNodes(p.nodes)| && picksC[1] < |EligibleNodes(p.nodes)|
    ensures InverseDraws(p, 1.0, [0, 0], picksC, [])
    ensures MoveCount(|MovableSources(p)|, 1.0) == 2
    ensures |SourcesToMove(p, 1.0, [0, 0])| == 1
    ensures !SetsHoldTotal(p, 1.0, [0, 0], picksC, [])
  {
    var movable := MovableSources(p);
    assert MoveCount(2, 1.0) == 2;
    assert Drawn(movable, [0, 0], 1) == [movable[0]];
    assert Drawn(movable, [0, 0], 2) == [movable[0]];
  }

  /** With nothing to move or nowhere to move it, the call connects generated sources instead. */
  lemma InverseFallback(p: PdnState, delta: real, picksD: seq<nat>, picksC: seq<nat>, fractions: seq<real>)
    requires SourceLinksOk(p) && InverseDelta(p, delta) && InverseDraws(p, delta, picksD, picksC, fractions)
    requires |MovableSources(p)| == 0 || |EligibleNodes(p.nodes)| == 0
    ensures ConnectDraws(p, delta, picksC, fractions)
    ensures Inverse(p, delta, picksD, picksC, fractions) == ConnectFake(p, delta, picksC, fractions)
  {
  }

  /**
   * Moving keeps the arenas' sizes and the other arenas, makes at most
   * `floor(|movable| * delta)` moves, and at least one whenever that bound
   * is positive.
   */
  lemma InverseCount(p: PdnState, delta: real, picksD: seq<nat>, picksC: seq<nat>, fractions: seq<real>)
    requires SourceLinksOk(p) && InverseDelta(p, delta) && InverseDraws(p, delta, picksD, picksC, fractions)
    requires CanMove(p)
    ensures var q := Inverse(p, delta, picksD, picksC, fractions);
      var total := MoveCount(|MovableSources(p)|, delta);
      var made := MovesMade(p, delta, picksD, picksC, fractions);
      |q.nodes| == |p.nodes| && |q.currentSources| == |p.currentSources| &&
      q.file == p.file && q.resistors == p.resistors && q.voltageSources == p.voltageSources &&
      made <= total && (0 < total ==> 0 < made)
  {
    var total := MoveCount(|MovableSources(p)|, delta);
    var ds, cs := SourcesToMove(p, delta, picksD), NodesToFill(p, delta, picksC);
    MoveFromArenas(p, ds, cs, 0, MovesMade(p, delta, picksD, picksC, fractions));
    if 0 < total {
      DrawnNonEmpty(MovableSources(p), picksD, total);
      DrawnNonEmpty(EligibleNodes(p.nodes), picksC, total);
    }
  }

  /**
   * The `t`-th move takes a source that sat on an untouched node to a node
   * that was eligible: the source is re-attached there, renamed with
   * `_new`, placed at the node's coordinates and keeps its value; both
   * nodes end up faked, so the source is no longer on an untouched node.
   */
  lemma InverseMovedSource(p: PdnState, delta: real, picksD: seq<nat>, picksC: seq<nat>, fractions: seq<real>, t: nat)
    requires SourceLinksOk(p) && InverseDelta(p, delta) && InverseDraws(p, delta, picksD, picksC, fractions)
    requires CanMove(p) && t < MovesMade(p, delta, picksD, picksC, fractions)
    ensures var q := Inverse(p, delta, picksD, picksC, fractions);
      var d := SourcesToMove(p, delta, picksD)[t];
      var c := NodesToFill(p, delta, picksC)[t];
      var o := p.currentSources[d].connectedNode.value;
      OnRealNode(p, d) && Eligible(p.nodes[c]) && |q.nodes| == |p.nodes| &&
      q.currentSources[d].connectedNode == Some(c) &&
      q.currentSources[d].name == p.currentSources[d].name + "_new" &&
      q.currentSources[d].value == p.currentSources[d].value &&
      CurrentSources.Coords(q.currentSources[d]) == GetCoordinates(p.nodes[c]) &&
      q.nodes[c].fakedByCurrentSource && q.nodes[o].fakedByCurrentSource &&
      OnFakedNode(q, d) && !OnRealNode(q, d)
  {
    var ds, cs := SourcesToMove(p, delta, picksD), NodesToFill(p, delta, picksC);
    var k := MovesMade(p, delta, picksD, picksC, fractions);
    DescendingDistinct(ds);
    MoveFromMoved(p, ds, cs, 0, k, t);
    MoveFromTargetFaked(p, ds, cs, 0, k, t);
    MoveFromOriginFaked(p, ds, cs, 0, k, t);
  }

  /** A source that is not drawn keeps its record, node link included. */
  lemma InverseUntouched(p: PdnState, delta: real, picksD: seq<nat>, picksC: seq<nat>, fractions: seq<real>, e: nat)
    requires SourceLinksOk(p) && InverseDelta(p, delta) && InverseDraws(p, delta, picksD, picksC, fractions)
    requires CanMove(p) && e < |p.currentSources| && e !in SourcesToMove(p, delta, picksD)
    ensures Inverse(p, delta, picksD, picksC, fractions).currentSources[e] == p.currentSources[e]
  {
    var ds, cs := SourcesToMove(p, delta, picksD), NodesToFill(p, delta, picksC);
    MoveFromUntouched(p, ds, cs, 0, MovesMade(p, delta, picksD, picksC, fractions), e);
  }

  /**
   * Either branch keeps the node arena's size and changes every node at
   * most in its current sources and their marks; a faked node stays faked.
   */
  lemma InverseKeepsNode(p: PdnState, delta: real, picksD: seq<nat>, picksC: seq<nat>, fractions: seq<real>, j: nat)
    requires SourceLinksOk(p) && InverseDelta(p, delta) && InverseDraws(p, delta, picksD, picksC, fractions)
    requires j < |p.nodes|
    ensures var q := Inverse(p, delta, picksD, picksC, fractions);
      |q.nodes| == |p.nodes| && SourceMarksOnly(p.nodes[j], q.nodes[j])
  {
    if CanMove(p) {
      var ds, cs := SourcesToMove(p, delta, picksD), NodesToFill(p, delta, picksC);
      MoveFromKeepsNode(p, ds, cs, 0, MovesMade(p, delta, picksD, picksC, fractions), j);
    } else {
      ConnectFakeKeepsNode(p, delta, picksC, fractions, j);
    }
  }

  /** Either branch keeps every link in range and every edge consistent. */
  lemma InverseWellFormed(p: PdnState, delta: real, picksD: seq<nat>, picksC: seq<nat>, fractions: seq<real>)
    requires WellFormed(p) && EdgesConsistent(p)
    requires InverseDelta(p, delta) && InverseDraws(p, delta, picksD, picksC, fractions)
    ensures SourceLinksOk(p)
    ensures WellFormed(Inverse(p, delta, picksD, picksC, fractions))
    ensures EdgesConsistent(Inverse(p, delta, picksD, picksC, fractions))
  {
    SourceLinksOfWellFormed(p);
    if CanMove(p) {
      var ds, cs := SourcesToMove(p, delta, picksD), NodesToFill(p, delta, picksC);
      MoveFromEdges(p, ds, cs, 0, MovesMade(p, delta, picksD, picksC, fractions));
    } else {
      ConnectFakeWellFormed(p, delta, picksC, fractions);
    }
  }

  /** Connecting generated sources changes every node at most in its current sources and their marks, and never clears a faked mark. */
  lemma ConnectFakeKeepsNode(p: PdnState, delta: real, picks: seq<nat>, fractions: seq<real>, j: nat)
    requires ConnectDelta(p, delta) && ConnectDraws(p, delta, picks, fractions) && j < |p.nodes|
    ensures var r := ConnectFake(p, delta, picks, fractions);
      |r.nodes| == |p.nodes| && SourceMarksOnly(p.nodes[j], r.nodes[j])
  {
    if |EligibleNodes(p.nodes)| > 0 {
      var targets := ConnectTargets(p, delta, picks);
      var lo, hi := MinValue(p.currentSources), MaxValue(p.currentSources);
      if t :| 0 <= t < |targets| && targets[t] == j {
        DescendingDistinct(targets);
        PlaceFakesTargets(p, targets, lo, hi, fractions, t);
      } else {
        PlaceFakesUntouched(p, targets, lo, hi, fractions, j);
      }
    }
  }

  /** A source on a faked node stays there through `connectFakeCurrentSources`. */
  lemma ConnectFakeKeepsMoved(p: PdnState, delta: real, picks: seq<nat>, fractions: seq<real>, d: nat)
    requires ConnectDelta(p, delta) && ConnectDraws(p, delta, picks, fractions) && OnFakedNode(p, d)
    ensures var r := ConnectFake(p, delta, picks, fractions);
      r.currentSources[d].connectedNode == p.currentSources[d].connectedNode && OnFakedNode(r, d)
  {
    var r := ConnectFake(p, delta, picks, fractions);
    ConnectFakeKeepsNode(p, delta, picks, fractions, p.currentSources[d].connectedNode.value);
    if |EligibleNodes(p.nodes)| > 0 {
      ConnectFakeCount(p, delta, picks, fractions);
      assert r.currentSources[d] == r.currentSources[..|p.currentSources|][d];
    } else {
      ScaleSourcesSpec(p.currentSources, delta);
    }
  }

  /**
   * A source on a faked node stays there through
   * `inverseCurrentSourcesPositions`: it is never drawn, so a source is
   * moved at most once over any sequence of perturbations.
   */
  lemma InverseKeepsMoved(p: PdnState, delta: real, picksD: seq<nat>, picksC: seq<nat>, fractions: seq<real>, d: nat)
    requires SourceLinksOk(p) && InverseDelta(p, delta) && InverseDraws(p, delta, picksD, picksC, fractions)
    requires OnFakedNode(p, d)
    ensures var q := Inverse(p, delta, picksD, picksC, fractions);
      q.currentSources[d].connectedNode == p.currentSources[d].connectedNode && OnFakedNode(q, d)
  {
    if CanMove(p) {
      var ds := SourcesToMove(p, delta, picksD);
      assert d !in ds;
      InverseUntouched(p, delta, picksD, picksC, fractions, d);
      InverseKeepsNode(p, delta, picksD, picksC, fractions, p.currentSources[d].connectedNode.value);
      InverseCount(p, delta, picksD, picksC, fractions);
    } else {
      ConnectFakeKeepsMoved(p, delta, picksC, fractions, d);
    }
  }
}
