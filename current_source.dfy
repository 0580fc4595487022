/**
 * Current-source records (include/current_source.h,
 * src/current_source.cpp). `connectedNode` is an index into the node
 * arena; `None` is the null pointer left by `fullyDisconnection`.
 */
module CurrentSources {
  import opened Types
  import opened Strings
  import opened NodeNames

  datatype CurrentSource = CurrentSource(
    value: real,
    name: string,
    connectedNode: Option<nat>,
    layer: U8, x: U32, y: U32)

  /** The constructor: the layer is cast to `uint8_t`; no node is attached yet. */
  function NewCurrentSource(at: NodeCoords, value: real, name: string): CurrentSource
  {
    CurrentSource(value, name, None, Truncate8(at.layer), at.x, at.y)
  }

  /** The stored coordinates. */
  function Coords(s: CurrentSource): NodeCoords
  {
    NodeCoords(s.layer, s.x, s.y)
  }

  /** `setNewCoords`: replaces the coordinates (layer truncated again) and nothing else. */
  function SetNewCoords(s: CurrentSource, at: NodeCoords): (t: CurrentSource)
    ensures Coords(t) == NodeCoords(at.layer % 0x100, at.x, at.y)
    ensures t.value == s.value && t.name == s.name && t.connectedNode == s.connectedNode
  {
    s.(layer := Truncate8(at.layer), x := at.x, y := at.y)
  }

  /** The spice description without the name: node field, ground `0`, formatted value. */
  function ToString(s: CurrentSource, fmt: real -> string): string
  {
    NodeField(s.layer, s.x, s.y) + " " + ("0" + " " + fmt(s.value))
  }

  /** The netlist line `writeNetlistToFile` emits for the source. */
  function Line(s: CurrentSource, fmt: real -> string): string
  {
    s.name + " " + ToString(s, fmt)
  }

  /**
   * The line splits into four tokens; the first node field parses back to
   * the stored coordinates and the second is the ground node (0,0,0).
   */
  lemma LineRoundTrip(s: CurrentSource, fmt: real -> string)
    requires ' ' !in s.name
    requires fmt(s.value) != [] && ' ' !in fmt(s.value)
    ensures |Tokens(Line(s, fmt))| == 4
    ensures Tokens(Line(s, fmt))[0] == s.name
    ensures NodeNameCoords(Tokens(Line(s, fmt))[1]) == Some(Coords(s))
    ensures NodeNameCoords(Tokens(Line(s, fmt))[2]) == Some(NodeCoords(0, 0, 0))
    ensures Tokens(Line(s, fmt))[3] == fmt(s.value)
  {
    FourTokens(s.name, NodeField(s.layer, s.x, s.y), "0", fmt(s.value));
    NodeFieldRoundTrip(s.layer, s.x, s.y);
  }

  /** After `setNewCoords` the written line carries the new node's coordinates. */
  lemma MovedLineRoundTrip(s: CurrentSource, at: NodeCoords, fmt: real -> string)
    requires ' ' !in s.name
    requires fmt(s.value) != [] && ' ' !in fmt(s.value)
    ensures var t := Tokens(Line(SetNewCoords(s, at), fmt));
      |t| == 4 && NodeNameCoords(t[1]) == Some(NodeCoords(at.layer % 0x100, at.x, at.y))
  {
    LineRoundTrip(SetNewCoords(s, at), fmt);
  }

  /** `fullyDisconnection`: drops the node link and keeps everything else. */
  function FullyDisconnection(s: CurrentSource): (d: CurrentSource)
    ensures d.connectedNode == None
    ensures d.(connectedNode := s.connectedNode) == s
  {
    s.(connectedNode := None)
  }
}
