/**
 * Resistor records (include/resistor.h, src/resistor.cpp). The container
 * keeps every resistor in an arena; `connectedNodes` holds indices into the
 * node arena instead of shared pointers.
 */
module Resistors {
  import opened Types
  import opened Strings
  import opened NodeNames

  /** The stored layers are the 8-bit truncations of the parsed layer slots. */
  datatype Resistor = Resistor(
    value: real,
    name: string,
    connectedNodes: seq<nat>,
    layer1: U8, layer2: U8,
    x1: U32, x2: U32,
    y1: U32, y2: U32)

  /** The constructor: both endpoints' coordinates, with the layers cast to `uint8_t`. */
  function NewResistor(first: NodeCoords, second: NodeCoords, value: real, name: string): Resistor
  {
    Resistor(value, name, [],
      Truncate8(first.layer), Truncate8(second.layer),
      first.x, second.x, first.y, second.y)
  }

  /** The stored coordinates of the first endpoint. */
  function FirstEnd(r: Resistor): NodeCoords
  {
    NodeCoords(r.layer1, r.x1, r.y1)
  }

  /** The stored coordinates of the second endpoint. */
  function SecondEnd(r: Resistor): NodeCoords
  {
    NodeCoords(r.layer2, r.x2, r.y2)
  }

  /** A via joins two different metal layers. */
  predicate IsViaResistor(r: Resistor)
  {
    r.layer1 != r.layer2
  }

  /**
   * Via-ness of a freshly built resistor is decided on the truncated
   * layers: layers 1 and 257 count as the same layer.
   */
  lemma ViaOfNewResistor(first: NodeCoords, second: NodeCoords, value: real, name: string)
    ensures IsViaResistor(NewResistor(first, second, value, name)) <==>
            first.layer % 0x100 != second.layer % 0x100
  {
  }

  /** The spice description without the name: two node fields and the formatted value. */
  function ToString(r: Resistor, fmt: real -> string): string
  {
    NodeField(r.layer1, r.x1, r.y1) + " " + (NodeField(r.layer2, r.x2, r.y2) + " " + fmt(r.value))
  }

  /** The netlist line `writeNetlistToFile` emits for the resistor. */
  function Line(r: Resistor, fmt: real -> string): string
  {
    r.name + " " + ToString(r, fmt)
  }

  /**
   * With a space-free name and a formatter that yields a non-empty,
   * space-free number, the line splits into exactly four tokens, and the
   * two node fields parse back to the stored endpoint coordinates.
   */
  lemma LineRoundTrip(r: Resistor, fmt: real -> string)
    requires ' ' !in r.name
    requires fmt(r.value) != [] && ' ' !in fmt(r.value)
    ensures |Tokens(Line(r, fmt))| == 4
    ensures Tokens(Line(r, fmt))[0] == r.name
    ensures NodeNameCoords(Tokens(Line(r, fmt))[1]) == Some(FirstEnd(r))
    ensures NodeNameCoords(Tokens(Line(r, fmt))[2]) == Some(SecondEnd(r))
    ensures Tokens(Line(r, fmt))[3] == fmt(r.value)
  {
    FourTokens(r.name, NodeField(r.layer1, r.x1, r.y1), NodeField(r.layer2, r.x2, r.y2), fmt(r.value));
    NodeFieldRoundTrip(r.layer1, r.x1, r.y1);
    NodeFieldRoundTrip(r.layer2, r.x2, r.y2);
  }

  /**
   * Constructor, `toString` and `parseNodeName` together: the written
   * fields of a new resistor parse to the given coordinates with each
   * layer reduced modulo 256.
   */
  lemma NewResistorRoundTrip(first: NodeCoords, second: NodeCoords, value: real, name: string,
                             fmt: real -> string)
    requires ' ' !in name && fmt(value) != [] && ' ' !in fmt(value)
    ensures var t := Tokens(Line(NewResistor(first, second, value, name), fmt));
      |t| == 4 && t[0] == name &&
      NodeNameCoords(t[1]) == Some(NodeCoords(first.layer % 0x100, first.x, first.y)) &&
      NodeNameCoords(t[2]) == Some(NodeCoords(second.layer % 0x100, second.x, second.y))
  {
    LineRoundTrip(NewResistor(first, second, value, name), fmt);
  }

  /** `fullyDisconnection`: drops the node links and keeps everything else. */
  function FullyDisconnection(r: Resistor): (d: Resistor)
    ensures d.connectedNodes == []
    ensures d.(connectedNodes := r.connectedNodes) == r
  {
    r.(connectedNodes := [])
  }
}
