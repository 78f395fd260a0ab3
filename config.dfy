/** The mod's configuration: only its values and the default the mod falls
    back to are modelled; reading and writing the JSON file is not. */
module Configs {

  /** Where the level-loading progress widget is drawn, in declaration order. */
  datatype Position = Center | TopLeft | TopRight | BottomLeft | BottomRight

  /** `Position.ordinal()`. */
  function Ordinal(p: Position): (n: nat)
    ensures n < 5
    ensures n == 0 <==> p == Center
  {
    match p
    case Center => 0
    case TopLeft => 1
    case TopRight => 2
    case BottomLeft => 3
    case BottomRight => 4
  }

  /** The fields of `Config`; `brightness` is passed through to drawing and
      not interpreted by the model. */
  datatype Config = Config(
    secondsStay: real,
    secondsFade: real,
    brightness: real,
    position: Position,
    shouldLoadResources: bool)

  /** The values a new `Config` starts with. */
  const Default: Config := Config(5.0, 0.5, 1.0, BottomRight, true)
}
