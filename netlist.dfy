/**
 * The netlist `writeNetlistToFile` produces (src/pdn_container.cpp): one
 * line per element, resistors first, then voltage sources, then current
 * sources, each in arena order. Number formatting is the parameter `fmt`.
 */
module Netlist {
  import opened Types
  import opened Strings
  import opened NodeNames
  import Resistors
  import CurrentSources
  import VoltageSources
  import opened Graph
  import opened Parser

  /** The resistor block of the netlist. */
  function ResistorLines(rs: seq<Resistors.Resistor>, fmt: real -> string): (lines: seq<string>)
    ensures |lines| == |rs|
  {
    seq(|rs|, i requires 0 <= i < |rs| => Resistors.Line(rs[i], fmt))
  }

  /** The voltage-source block of the netlist. */
  function VoltageLines(vs: seq<VoltageSources.VoltageSource>, fmt: real -> string): (lines: seq<string>)
    ensures |lines| == |vs|
  {
    seq(|vs|, i requires 0 <= i < |vs| => VoltageSources.Line(vs[i], fmt))
  }

  /** The current-source block of the netlist. */
  function CurrentLines(cs: seq<CurrentSources.CurrentSource>, fmt: real -> string): (lines: seq<string>)
    ensures |lines| == |cs|
  {
    seq(|cs|, i requires 0 <= i < |cs| => CurrentSources.Line(cs[i], fmt))
  }

  /** The whole netlist: one line per element of the working graph. */
  function NetlistLines(p: PdnState, fmt: real -> string): (lines: seq<string>)
    ensures |lines| == |p.resistors| + |p.voltageSources| + |p.currentSources|
  {
    ResistorLines(p.resistors, fmt) + VoltageLines(p.voltageSources, fmt) + CurrentLines(p.currentSources, fmt)
  }

  /** Line `k` belongs to the element at the matching arena position. */
  lemma NetlistLayout(p: PdnState, fmt: real -> string, k: nat)
    requires k < |NetlistLines(p, fmt)|
    ensures var nr := |p.resistors|;
            var nv := |p.voltageSources|;
            var line := NetlistLines(p, fmt)[k];
            (k < nr ==> line == Resistors.Line(p.resistors[k], fmt)) &&
            (nr <= k < nr + nv ==> line == VoltageSources.Line(p.voltageSources[k - nr], fmt)) &&
            (nr + nv <= k ==> line == CurrentSources.Line(p.currentSources[k - nr - nv], fmt))
  {
  }

  /** A name the reader classifies as an element and keeps in one token. */
  predicate CleanName(name: string)
  {
    name != [] && IsElementChar(name[0]) && ' ' !in name
  }

  /** A formatted number that is one token and ends in no whitespace. */
  predicate CleanValue(fmt: real -> string, v: real)
  {
    fmt(v) != [] && ' ' !in fmt(v) && !IsSpace(fmt(v)[|fmt(v)| - 1])
  }

  /** Every element of the graph has a clean name, and every value formats cleanly. */
  predicate Printable(p: PdnState, fmt: real -> string)
  {
    (forall i :: 0 <= i < |p.resistors| ==>
      CleanName(p.resistors[i].name) && CleanValue(fmt, p.resistors[i].value)) &&
    (forall i :: 0 <= i < |p.voltageSources| ==>
      CleanName(p.voltageSources[i].name) && CleanValue(fmt, p.voltageSources[i].value)) &&
    (forall i :: 0 <= i < |p.currentSources| ==>
      CleanName(p.currentSources[i].name) && CleanValue(fmt, p.currentSources[i].value))
  }

  /**
   * Reading a written resistor line back: it splits into name, two node
   * fields and the formatted value, and the node fields name its two ends.
   */
  lemma ResistorLineFields(p: PdnState, fmt: real -> string, k: nat)
    requires Printable(p, fmt) && k < |p.resistors|
    ensures var t := Tokens(NetlistLines(p, fmt)[k]);
            var r := p.resistors[k];
            |t| == 4 && t[0] == r.name && t[3] == fmt(r.value) &&
            NodeNameCoords(t[1]) == Some(Resistors.FirstEnd(r)) &&
            NodeNameCoords(t[2]) == Some(Resistors.SecondEnd(r))
  {
    NetlistLayout(p, fmt, k);
    Resistors.LineRoundTrip(p.resistors[k], fmt);
  }

  /** Reading a written voltage-source line back: its node and the ground node. */
  lemma VoltageLineFields(p: PdnState, fmt: real -> string, k: nat)
    requires Printable(p, fmt) && |p.resistors| <= k < |p.resistors| + |p.voltageSources|
    ensures var t := Tokens(NetlistLines(p, fmt)[k]);
            var s := p.voltageSources[k - |p.resistors|];
            |t| == 4 && t[0] == s.name && t[3] == fmt(s.value) &&
            NodeNameCoords(t[1]) == Some(VoltageSources.Coords(s)) &&
            NodeNameCoords(t[2]) == Some(NodeCoords(0, 0, 0))
  {
    NetlistLayout(p, fmt, k);
    VoltageSources.LineRoundTrip(p.voltageSources[k - |p.resistors|], fmt);
  }

  /** Reading a written current-source line back: its node and the ground node. */
  lemma CurrentLineFields(p: PdnState, fmt: real -> string, k: nat)
    requires Printable(p, fmt)
    requires |p.resistors| + |p.voltageSources| <= k < |NetlistLines(p, fmt)|
    ensures var t := Tokens(NetlistLines(p, fmt)[k]);
            var s := p.currentSources[k - |p.resistors| - |p.voltageSources|];
            |t| == 4 && t[0] == s.name && t[3] == fmt(s.value) &&
            NodeNameCoords(t[1]) == Some(CurrentSources.Coords(s)) &&
            NodeNameCoords(t[2]) == Some(NodeCoords(0, 0, 0))
  {
    NetlistLayout(p, fmt, k);
    CurrentSources.LineRoundTrip(p.currentSources[k - |p.resistors| - |p.voltageSources|], fmt);
  }

  /** A string that starts with an element character and ends in no whitespace is its own trim. */
  lemma TrimmedUnchanged(s: string)
    requires s != [] && IsElementChar(s[0]) && !IsSpace(s[|s| - 1])
    ensures Trimmed(s) == s
  {
    assert TrimLeft(s) == s;
  }

  lemma SplitLast(s: seq<string>)
    requires s != []
    ensures s[..|s| - 1] + [s[|s| - 1]] == s
  {
  }

  /** Lines that are already trimmed element lines pass the reader's filter unchanged. */
  lemma {:induction false} RetainedUnchanged(lines: seq<string>)
    requires forall i :: 0 <= i < |lines| ==>
      lines[i] != [] && IsElementChar(lines[i][0]) && !IsSpace(lines[i][|lines[i]| - 1])
    ensures RetainedLines(lines) == lines
    decreases |lines|
  {
    if lines != [] {
      var init := lines[..|lines| - 1];
      var last := lines[|lines| - 1];
      assert forall i :: 0 <= i < |init| ==> init[i] == lines[i];
      RetainedUnchanged(init);
      assert RetainedLines(lines) == RetainedLines(init) + KeptLine(last);
      TrimmedUnchanged(last);
      assert KeptLine(last) == [last];
      SplitLast(lines);
    }
  }

  /** A concatenation starts where its front starts and ends where its back ends. */
  lemma ConcatEnds(front: string, back: string)
    requires front != [] && back != []
    ensures (front + back)[0] == front[0]
    ensures (front + back)[|front + back| - 1] == back[|back| - 1]
  {
  }

  /** A line `name + " " + (field + " " + (field + " " + number))` starts with the name and ends with the number. */
  lemma LineEnds(name: string, a: string, b: string, value: string)
    requires name != [] && value != []
    ensures var line := name + " " + (a + " " + (b + " " + value));
            line != [] && line[0] == name[0] && line[|line| - 1] == value[|value| - 1]
  {
    ConcatEnds(b + " ", value);
    ConcatEnds(a + " ", b + " " + value);
    ConcatEnds(name + " ", a + " " + (b + " " + value));
  }

  /** Every written line starts with its element's name and ends with its formatted value. */
  lemma NetlistLineShape(p: PdnState, fmt: real -> string, k: nat)
    requires Printable(p, fmt) && k < |NetlistLines(p, fmt)|
    ensures var line := NetlistLines(p, fmt)[k];
            line != [] && IsElementChar(line[0]) && !IsSpace(line[|line| - 1])
  {
    NetlistLayout(p, fmt, k);
    var nr := |p.resistors|;
    var nv := |p.voltageSources|;
    if k < nr {
      var r := p.resistors[k];
      LineEnds(r.name, NodeField(r.layer1, r.x1, r.y1), NodeField(r.layer2, r.x2, r.y2), fmt(r.value));
    } else if k < nr + nv {
      var s := p.voltageSources[k - nr];
      LineEnds(s.name, NodeField(s.layer, s.x, s.y), "0", fmt(s.value));
    } else {
      var s := p.currentSources[k - nr - nv];
      LineEnds(s.name, NodeField(s.layer, s.x, s.y), "0", fmt(s.value));
    }
  }

  /**
   * A written netlist whose names and numbers are clean is read back
   * line for line: the reader's filter keeps every line as it is.
   */
  lemma NetlistRetained(p: PdnState, fmt: real -> string)
    requires Printable(p, fmt)
    ensures RetainedLines(NetlistLines(p, fmt)) == NetlistLines(p, fmt)
  {
    var lines := NetlistLines(p, fmt);
    forall k | 0 <= k < |lines|
      ensures lines[k] != [] && IsElementChar(lines[k][0]) && !IsSpace(lines[k][|lines[k]| - 1])
    {
      NetlistLineShape(p, fmt, k);
    }
    RetainedUnchanged(lines);
  }
}
