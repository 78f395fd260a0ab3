/** Where the level-loading progress widget is drawn: the two variable
    modifiers on `LevelLoadingScreen.render` that replace the widget's centre
    `x` and `y` according to the configured position. All arithmetic is Java
    `int` arithmetic, so every operation wraps modulo 2^32 and `/` truncates
    toward zero. */
module LevelLoadingScreen {
  import opened Jvm
  import opened Configs

  /** `diameter / 4` in Java. */
  function Quarter(diameter: int): int
  {
    Div(diameter, 4)
  }

  /** The widget's inset from a screen edge: `diameter + (diameter / 4)`. */
  function Inset(diameter: int): int
  {
    Wrap(diameter + Quarter(diameter))
  }

  /** The distance from the far edge: `extent - diameter - (diameter / 4)`. */
  function FarSide(extent: int, diameter: int): int
  {
    Wrap(Wrap(extent - diameter) - Quarter(diameter))
  }

  /** The far-side placement mirrors the inset: the two add up to the
      extent, in `int` arithmetic, whatever the extent and diameter. */
  lemma FarSideMirrorsInset(extent: int, diameter: int)
    requires IsInt(extent)
    ensures Wrap(FarSide(extent, diameter) + Inset(diameter)) == extent
  {
    WrapMirror(extent, diameter, Quarter(diameter));
  }

  /** The older bottom placement, 30 higher, still mirrors the inset, about
      a height 30 less. */
  lemma BottomMirrorsInset(height: int, diameter: int)
    requires IsInt(height)
    ensures Wrap(FarSide(height, diameter) + Inset(diameter)) == height
    ensures Wrap(Wrap(FarSide(height, diameter) - 30) + Inset(diameter)) == Wrap(height - 30)
  {
    var f := FarSide(height, diameter);
    var d := Inset(diameter);
    FarSideMirrorsInset(height, diameter);
    WrapShiftedMirror(Wrap(f - 30), d, f, height, -30);
  }

  /** The replacement for `x`: unchanged for CENTER; the left positions
      (ordinals 1 and 3) take the inset, and the right positions (ordinals 2
      and 4) its mirror image, which adds up with it to the width. */
  function ProgressX(position: Position, x: int, width: int, diameter: int): (r: int)
    requires IsInt(x) && IsInt(width) && IsInt(diameter)
    ensures IsInt(r)
    ensures position == Center ==> r == x
    ensures position in {TopLeft, BottomLeft} ==> r == Inset(diameter)
    ensures position in {TopRight, BottomRight} ==> Wrap(r + Inset(diameter)) == width
  {
    FarSideMirrorsInset(width, diameter);
    if position != Center then
      match Ordinal(position)
      case 1 => Inset(diameter)
      case 3 => Inset(diameter)
      case 2 => FarSide(width, diameter)
      case 4 => FarSide(width, diameter)
    else x
  }

  /** The versions that take the newer `y` arithmetic: everything that does
      not start with "1.20", and 1.20.5 and 1.20.6. */
  predicate UsesNewLayout(version: string) {
    !StartsWith(version, "1.20") || version == "1.20.5" || version == "1.20.6"
  }

  /** The `y` placement once the version test has been made: unchanged for
      CENTER; otherwise the top positions (ordinals 1 and 2) take the inset,
      15 lower with the newer arithmetic, and the bottom positions (ordinals
      3 and 4) its mirror image, 30 higher with the older arithmetic. */
  function PlaceY(position: Position, y: int, height: int, diameter: int, newLayout: bool): (r: int)
    requires IsInt(y) && IsInt(height) && IsInt(diameter)
    ensures IsInt(r)
    ensures position == Center ==> r == y
    ensures position in {TopLeft, TopRight} ==>
              r == if newLayout then Wrap(Inset(diameter) + 15) else Inset(diameter)
    ensures position in {BottomLeft, BottomRight} ==>
              Wrap(r + Inset(diameter)) == if newLayout then height else Wrap(height - 30)
  {
    BottomMirrorsInset(height, diameter);
    if position != Center then
      if newLayout then
        match Ordinal(position)
        case 1 => Wrap(Inset(diameter) + 15)
        case 2 => Wrap(Inset(diameter) + 15)
        case 3 => FarSide(height, diameter)
        case 4 => FarSide(height, diameter)
      else
        match Ordinal(position)
        case 1 => Inset(diameter)
        case 2 => Inset(diameter)
        case 3 => Wrap(FarSide(height, diameter) - 30)
        case 4 => Wrap(FarSide(height, diameter) - 30)
    else y
  }

  /** The replacement for `y` on Minecraft `version`: the newer arithmetic
      on every version outside 1.20, and on 1.20.5 and 1.20.6. */
  function ProgressY(position: Position, y: int, height: int, diameter: int, version: string): (r: int)
    requires IsInt(y) && IsInt(height) && IsInt(diameter)
    ensures IsInt(r)
    ensures position == Center ==> r == y
    ensures position in {TopLeft, TopRight} ==>
              r == if UsesNewLayout(version) then Wrap(Inset(diameter) + 15) else Inset(diameter)
    ensures position in {BottomLeft, BottomRight} ==>
              Wrap(r + Inset(diameter)) == if UsesNewLayout(version) then height else Wrap(height - 30)
  {
    PlaceY(position, y, height, diameter, UsesNewLayout(version))
  }

  /** The top and bottom placements add up to the height plus 15 with the
      newer arithmetic, and to the height minus 30 with the older. */
  lemma VerticalPlacements(height: int, diameter: int, newLayout: bool)
    requires IsInt(height) && IsInt(diameter)
    ensures var top := PlaceY(TopLeft, 0, height, diameter, newLayout);
            var bottom := PlaceY(BottomLeft, 0, height, diameter, newLayout);
            Wrap(top + bottom) == if newLayout then Wrap(height + 15) else Wrap(height - 30)
  {
    var top := PlaceY(TopLeft, 0, height, diameter, newLayout);
    var bottom := PlaceY(BottomLeft, 0, height, diameter, newLayout);
    var d := Inset(diameter);
    if newLayout {
      WrapShiftedMirror(top, bottom, d, height, 15);
    } else {
      assert top + bottom == bottom + d;
    }
  }

  /** For a diameter that cannot overflow, the inset is the diameter plus a
      quarter of it rounded down: between 1.25 diameters minus 3/4 and 1.25
      diameters. */
  lemma InsetIsQuarterMore(diameter: int)
    requires 0 <= diameter <= 0x4000_0000
    ensures Inset(diameter) == diameter + diameter / 4
    ensures 5 * diameter - 3 <= 4 * Inset(diameter) <= 5 * diameter
  {
  }

  /** A non-CENTER placement ignores the coordinate Minecraft computed. */
  lemma PlacementIgnoresOriginal(position: Position, x1: int, x2: int, y1: int, y2: int,
                                 width: int, height: int, diameter: int, version: string)
    requires position != Center
    requires IsInt(x1) && IsInt(x2) && IsInt(y1) && IsInt(y2) && IsInt(width) && IsInt(height) && IsInt(diameter)
    ensures ProgressX(position, x1, width, diameter) == ProgressX(position, x2, width, diameter)
    ensures ProgressY(position, y1, height, diameter, version) == ProgressY(position, y2, height, diameter, version)
  {
  }

  /** The version test on the releases around the change. */
  lemma VersionBranches()
    ensures !UsesNewLayout("1.20") && !UsesNewLayout("1.20.1") && !UsesNewLayout("1.20.4")
    ensures UsesNewLayout("1.20.5") && UsesNewLayout("1.20.6")
    ensures UsesNewLayout("1.19.4") && UsesNewLayout("1.21") && UsesNewLayout("1.21.1")
  {
    assert "1.19.4"[..4][3] != "1.20"[3];
    assert "1.21"[..4][3] != "1.20"[3];
    assert "1.21.1"[..4][3] != "1.20"[3];
  }
}
