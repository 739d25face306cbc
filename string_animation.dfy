/** The elastic string (src/Components/animations/StringAnimation.jsx).
    A pointer move clamps its height over the SVG into [50, 150] and sends
    the path towards the quadratic curve through that control height; a
    leave or the reset button sends it back to the straight line `final`.
    gsap's tween is modelled by its target: the path the tween ends at. */
module StringAnimation {
  import opened Wrappers

  const MinY: real := 50.0
  const MaxY: real := 150.0

  /** `Math.max(50, Math.min(150, y))`. */
  function Clamp(y: real): (r: real)
    ensures MinY <= r <= MaxY
    ensures MinY <= y <= MaxY ==> r == y
    ensures y < MinY ==> r == MinY
    ensures y > MaxY ==> r == MaxY
  {
    if y > MaxY then MaxY else if y < MinY then MinY else y
  }

  lemma ClampMonotone(y: real, z: real)
    requires y <= z
    ensures Clamp(y) <= Clamp(z)
  {
  }

  lemma ClampIdempotent(y: real)
    ensures Clamp(Clamp(y)) == Clamp(y)
  {
  }

  /** `M x0 y0 Q cx cy x1 y1`: a quadratic Bezier curve. */
  datatype Path = Quad(x0: real, y0: real, cx: real, cy: real, x1: real, y1: real)

  /** The path a move at height `y` sends the string to. */
  function MovePath(y: real): Path
  {
    Quad(10.0, 100.0, 500.0, Clamp(y), 990.0, 100.0)
  }

  /** `final`: the string at rest. */
  const Final := Quad(10.0, 100.0, 500.0, 100.0, 990.0, 100.0)

  /** A move lands on the rest path exactly when the pointer is at height
      100. */
  lemma MoveIsFinalIff(y: real)
    ensures MovePath(y) == Final <==> y == 100.0
  {
  }

  /** The paths the string can be sent to: fixed endpoints and control x,
      control y within the clamp range. */
  predicate Shaped(p: Path)
  {
    p.x0 == 10.0 && p.y0 == 100.0 && p.cx == 500.0 && p.x1 == 990.0 && p.y1 == 100.0
    && MinY <= p.cy <= MaxY
  }

  lemma PathsShaped(y: real)
    ensures Shaped(MovePath(y)) && Shaped(Final)
  {
  }

  // The path strings, for whole-number control heights.

  function DecimalDigit(d: nat): (c: char)
    requires d < 10
    ensures '0' <= c <= '9'
  {
    ('0' as int + d) as char
  }

  /** A whole number's decimal form, as a template literal writes it. */
  function Decimal(n: nat): (r: string)
    ensures |r| >= 1
    ensures forall i :: 0 <= i < |r| ==> '0' <= r[i] <= '9'
  {
    if n < 10 then [DecimalDigit(n)] else Decimal(n / 10) + [DecimalDigit(n % 10)]
  }

  function ParseDecimal(s: string): Option<nat>
  {
    if s == [] || !('0' <= s[|s| - 1] <= '9') then None
    else
      var last := s[|s| - 1] as int - '0' as int;
      if |s| == 1 then Some(last)
      else
        var front := ParseDecimal(s[..|s| - 1]);
        if front.None? then None else Some(front.value * 10 + last)
  }

  lemma {:induction false} DecimalRoundTrip(n: nat)
    ensures ParseDecimal(Decimal(n)) == Some(n)
    decreases n
  {
    if n >= 10 {
      DecimalRoundTrip(n / 10);
      var s := Decimal(n);
      assert s[..|s| - 1] == Decimal(n / 10);
    }
  }

  const MovePrefix := "M 10 100 Q 500 "
  const MoveSuffix := " 990 100"

  /** `initial` for a whole-number `clampedY`. */
  function MoveString(cy: nat): string
  {
    MovePrefix + Decimal(cy) + MoveSuffix
  }

  /** The `final` string. */
  const FinalString := "M 10 100 Q 500 100 990 100"

  /** Reads the control height back out of a move string. */
  function ControlHeight(s: string): Option<nat>
  {
    if |s| < |MovePrefix| + |MoveSuffix| then None
    else if s[..|MovePrefix|] != MovePrefix || s[|s| - |MoveSuffix|..] != MoveSuffix then None
    else ParseDecimal(s[|MovePrefix|..|s| - |MoveSuffix|])
  }

  /** Every move string keeps the fixed prefix and suffix and carries
      exactly its control height: two move strings are equal only for the
      same height. */
  lemma MoveStringRoundTrip(cy: nat)
    ensures ControlHeight(MoveString(cy)) == Some(cy)
  {
    DecimalRoundTrip(cy);
    var s := MoveString(cy);
    assert s[..|MovePrefix|] == MovePrefix;
    assert s[|s| - |MoveSuffix|..] == MoveSuffix;
    assert s[|MovePrefix|..|s| - |MoveSuffix|] == Decimal(cy);
  }

  /** At height 100 the move string is the `final` string. */
  lemma MoveAtRestIsFinal()
    ensures MoveString(100) == FinalString
  {
    assert Decimal(100) == "100" by {
      assert Decimal(10) == "10";
    }
  }

  /** A coordinate a template literal writes without a fraction or sign. */
  predicate Whole(x: real)
  {
    x >= 0.0 && x == x.Floor as real
  }

  /** The `d` attribute of a path whose coordinates are all whole numbers;
      other paths are written with fractions, which is not modelled. */
  function Render(p: Path): Option<string>
  {
    if Whole(p.x0) && Whole(p.y0) && Whole(p.cx) && Whole(p.cy) && Whole(p.x1) && Whole(p.y1) then
      Some("M " + Decimal(p.x0.Floor) + " " + Decimal(p.y0.Floor)
           + " Q " + Decimal(p.cx.Floor) + " " + Decimal(p.cy.Floor)
           + " " + Decimal(p.x1.Floor) + " " + Decimal(p.y1.Floor))
    else None
  }

  lemma FixedDecimals()
    ensures Decimal(10) == "10" && Decimal(100) == "100"
    ensures Decimal(500) == "500" && Decimal(990) == "990"
  {
    assert Decimal(50) == "50";
    assert Decimal(99) == "99";
  }

  /** The path a move targets is drawn exactly as the move string, for a
      whole-number pointer height inside the clamp range. */
  lemma RenderMatchesTemplate(cy: nat)
    requires 50 <= cy <= 150
    ensures Render(MovePath(cy as real)) == Some(MoveString(cy))
  {
    FixedDecimals();
    assert (10.0).Floor == 10 && (100.0).Floor == 100 && (500.0).Floor == 500 && (990.0).Floor == 990;
    assert (cy as real).Floor == cy;
    var d := Decimal(cy);
    assert "M " + "10" + " " + "100" + " Q " + "500" + " " + d + " " + "990" + " " + "100"
        == MovePrefix + d + MoveSuffix;
  }

  /** The rest path is drawn as `final`. */
  lemma RenderFinal()
    ensures Render(Final) == Some(FinalString)
  {
    RenderMatchesTemplate(100);
    assert MovePath(100 as real) == Final;
    MoveAtRestIsFinal();
  }

  /** One mounted string. */
  class ElasticString {
    /** Whether `svgRef.current` is set. */
    var svgMounted: bool
    var isHovering: bool
    /** Where the path's current tween ends. */
    var target: Path

    predicate Valid()
      reads this
    {
      Shaped(target)
    }

    constructor (svgMounted: bool)
      ensures Valid()
      ensures this.svgMounted == svgMounted && !isHovering && target == Final
    {
      this.svgMounted := svgMounted;
      isHovering := false;
      target := Final;
    }

    /** `handleMouseMove`, given `e.clientY` and the SVG's `rect.top`. */
    method MouseMove(clientY: real, rectTop: real)
      requires Valid()
      modifies this
      ensures Valid()
      ensures svgMounted == old(svgMounted) && isHovering == old(isHovering)
      ensures old(svgMounted) ==> target == MovePath(clientY - rectTop)
      ensures !old(svgMounted) ==> target == old(target)
    {
      if !svgMounted {
        return;
      }
      var y := clientY - rectTop;
      var clampedY := Clamp(y);
      target := Quad(10.0, 100.0, 500.0, clampedY, 990.0, 100.0);
    }

    method MouseLeave()
      requires Valid()
      modifies this
      ensures Valid()
      ensures svgMounted == old(svgMounted) && !isHovering && target == Final
    {
      isHovering := false;
      target := Final;
    }

    method MouseEnter()
      requires Valid()
      modifies this
      ensures Valid()
      ensures svgMounted == old(svgMounted) && isHovering && target == old(target)
    {
      isHovering := true;
    }

    /** `handleReset`. */
    method Reset()
      requires Valid()
      modifies this
      ensures Valid()
      ensures svgMounted == old(svgMounted) && isHovering == old(isHovering) && target == Final
    {
      target := Final;
    }
  }
}
