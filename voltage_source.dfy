/**
 * Voltage-source records (include/voltage_source.h,
 * src/voltage_source.cpp). `connectedNode` is an index into the node
 * arena; `None` is the null pointer left by `fullyDisconnection`.
 */
module VoltageSources {
  import opened Types
  import opened Strings
  import opened NodeNames

  datatype VoltageSource = VoltageSource(
    value: real,
    name: string,
    connectedNode: Option<nat>,
    layer: U8, x: U32, y: U32)

  /** The constructor: the layer is cast to `uint8_t`; no node is attached yet. */
  function NewVoltageSource(at: NodeCoords, value: real, name: string): VoltageSource
  {
    VoltageSource(value, name, None, Truncate8(at.layer), at.x, at.y)
  }

  /** The stored coordinates. */
  function Coords(s: VoltageSource): NodeCoords
  {
    NodeCoords(s.layer, s.x, s.y)
  }

  /** The spice description without the name: node field, ground `0`, formatted value. */
  function ToString(s: VoltageSource, fmt: real -> string): string
  {
    NodeField(s.layer, s.x, s.y) + " " + ("0" + " " + fmt(s.value))
  }

  /** The netlist line `writeNetlistToFile` emits for the source. */
  function Line(s: VoltageSource, fmt: real -> string): string
  {
    s.name + " " + ToString(s, fmt)
  }

  /**
   * The line splits into exactly four tokens, so it passes the parser's
   * token check, and its first node field parses back to the stored
   * coordinates; the second is the ground node.
   */
  lemma LineRoundTrip(s: VoltageSource, fmt: real -> string)
    requires ' ' !in s.name
    requires fmt(s.value) != [] && ' ' !in fmt(s.value)
    ensures |Tokens(Line(s, fmt))| == 4
    ensures Tokens(Line(s, fmt))[0] == s.name
    ensures NodeNameCoords(Tokens(Line(s, fmt))[1]) == Some(Coords(s))
    ensures NodeNameCoords(Tokens(Line(s, fmt))[2]) == Some(NodeCoords(0, 0, 0))
    ensures Tokens(Line(s, fmt))[3] == fmt(s.value)
  {
    FourTokens(s.name, NodeField(s.layer, s.x, s.y), "0", fmt(s.value));
    NodeFieldRoundTrip(s.layer, s.x, s.y);
  }

  /** Constructor and serialiser together: the layer comes back reduced modulo 256. */
  lemma NewVoltageSourceRoundTrip(at: NodeCoords, value: real, name: string, fmt: real -> string)
    requires ' ' !in name && fmt(value) != [] && ' ' !in fmt(value)
    ensures var t := Tokens(Line(NewVoltageSource(at, value, name), fmt));
      |t| == 4 && NodeNameCoords(t[1]) == Some(NodeCoords(at.layer % 0x100, at.x, at.y))
  {
    LineRoundTrip(NewVoltageSource(at, value, name), fmt);
  }

  /** `fullyDisconnection`: drops the node link and keeps everything else. */
  function FullyDisconnection(s: VoltageSource): (d: VoltageSource)
    ensures d.connectedNode == None
    ensures d.(connectedNode := s.connectedNode) == s
  {
    s.(connectedNode := None)
  }
}
