/**
 The simple border style: one rectangle filled with a flat colour, placed
 half the border thickness up and to the left of the geometry it is given
 and grown by the full thickness.
 */
module SimpleDrawing {
  import opened RustTypes
  import opened Wlc
  import opened BorderConfig
  import opened BorderBuffer
  import opened DrawBase

  /** A session together with the colour to paint with. */
  datatype SimpleDraw = SimpleDraw(base: BaseDraw, color: Color)

  /** True when the paint-rectangle arithmetic for thickness `t` stays within its Rust types. */
  predicate PaintFits(g: Geometry, t: u32) {
    var half := TruncDiv(U32AsI32(t), 2);
    && InI32(g.origin.x - half)
    && InI32(g.origin.y - half)
    && InU32(g.size.w + t)
    && InU32(g.size.h + t)
  }

  /**
   The rectangle the simple style fills: the origin moves by
   `thickness as i32 / 2`, truncating, and the size grows by the thickness.
   */
  function PaintRect(g: Geometry, t: u32): (p: Geometry)
    requires PaintFits(g, t)
    ensures p.size == Size(g.size.w + t, g.size.h + t)
    ensures t <= I32_MAX ==> p.origin == Point(g.origin.x - t / 2, g.origin.y - t / 2)
    ensures t > I32_MAX ==>
      p.origin == Point(g.origin.x + (TWO_POW_32 - t) / 2, g.origin.y + (TWO_POW_32 - t) / 2)
  {
    var half := TruncDiv(U32AsI32(t), 2);
    Geometry(Point(g.origin.x - half, g.origin.y - half), Size(g.size.w + t, g.size.h + t))
  }

  /**
   Where the painted rectangle lies: it starts `t / 2` before the given
   rectangle and ends `t - t / 2` past it on each axis, so the far side
   receives the extra pixel of an odd thickness.
   */
  lemma PaintRectSpan(g: Geometry, t: u32)
    requires PaintFits(g, t) && t <= I32_MAX
    ensures var p := PaintRect(g, t);
      && g.origin.x - p.origin.x == t / 2
      && g.origin.y - p.origin.y == t / 2
      && (p.origin.x + p.size.w) - (g.origin.x + g.size.w) == t - t / 2
      && (p.origin.y + p.size.h) - (g.origin.y + g.size.h) == t - t / 2
      && (t % 2 == 1 ==> (t - t / 2) - t / 2 == 1)
  {
  }

  /**
   Example: at thickness `u32::MAX` the cast gives -1 and the truncating
   `-1 / 2` is 0, so the paint rectangle does not move; a flooring division
   (Dafny's own `/`, for which `-1 / 2` is -1) would have moved it by one.
   */
  lemma PaintRectTruncates()
    ensures PaintFits(Geometry(Point(5, 5), Size(0, 0)), U32_MAX)
    ensures PaintRect(Geometry(Point(5, 5), Size(0, 0)), U32_MAX).origin == Point(5, 5)
  {
  }

  /** The program `SimpleDraw::draw` issues: clear, colour, rectangle, check, fill, check. */
  function Program(sd: SimpleDraw, borderG: Geometry, t: u32): (steps: seq<Step>)
    requires PaintFits(borderG, t)
    ensures Checks(steps) == 2
  {
    var steps := [Do(Clear), Do(SetColorSource(sd.color)), Do(Rectangle(PaintRect(borderG, t))), Check, Do(Fill), Check];
    assert steps[5..][1..] == [] && steps[4..][1..] == steps[5..] && steps[3..][1..] == steps[4..];
    assert steps[2..][1..] == steps[3..] && steps[1..][1..] == steps[2..];
    assert Checks(steps[5..]) == 1 && Checks(steps[4..]) == 1 && Checks(steps[3..]) == 2;
    assert Checks(steps[2..]) == 2 && Checks(steps[1..]) == 2;
    steps
  }

  /**
   `SimpleDraw::draw` with thickness `t`, the engine reporting `statuses[0]`
   after the rectangle is set up and `statuses[1]` after the fill. It fails
   at the first check that does not see success; on success it returns the
   buffer at the geometry the session held before drawing.
   */
  function Draw(sd: SimpleDraw, borderG: Geometry, t: u32, statuses: seq<Status>): (r: Result<Borders, DrawErr>)
    requires PaintFits(borderG, t)
    requires |statuses| == 2
    ensures r.Ok? <==> statuses[0] == Success && statuses[1] == Success
    ensures DrawContract(sd.base, r)
    ensures r.Ok? ==> r.value.geometry == sd.base.borders.geometry
    ensures statuses[0] != Success ==>
      r == Err(Cairo(statuses[0], AddStroke(sd.base, Wipe).borders))
    ensures statuses[0] == Success && statuses[1] != Success ==>
      && r.Err? && r.error.status == statuses[1]
      && r.error.borders.geometry == sd.base.borders.geometry
      && r.error.borders.surface.strokes == sd.base.borders.surface.strokes
           + [Wipe, Paint(sd.color, sd.base.cairo.path + [PaintRect(borderG, t)])]
    ensures r.Ok? ==>
      r.value.surface.strokes == sd.base.borders.surface.strokes
        + [Wipe, Paint(sd.color, sd.base.cairo.path + [PaintRect(borderG, t)])]
  {
    var originalG := sd.base.borders.geometry;
    var paint := PaintRect(borderG, t);
    var base := Apply(Apply(Apply(sd.base, Clear), SetColorSource(sd.color)), Rectangle(paint));
    match CheckCairo(base, statuses[0])
    case Err(e) => Err(e)
    case Ok(base) =>
      var base := Apply(base, Fill);
      match CheckCairo(base, statuses[1])
      case Err(e) => Err(e)
      case Ok(base) => Ok(Finish(base, originalG))
  }

  /** `Draw` is its program run under the check-after-each-step discipline, then finished at the original geometry. */
  lemma {:induction false} DrawRunsProgram(sd: SimpleDraw, borderG: Geometry, t: u32, statuses: seq<Status>)
    requires PaintFits(borderG, t) && |statuses| == 2
    ensures Draw(sd, borderG, t, statuses) ==
      match Run(sd.base, Program(sd, borderG, t), statuses)
      case Ok(d) => Ok(Finish(d, sd.base.borders.geometry))
      case Err(e) => Err(e)
  {
    var steps := Program(sd, borderG, t);
    var rect := PaintRect(borderG, t);
    assert steps[5..][1..] == steps[6..] == [];
    assert steps[4..][1..] == steps[5..] && steps[3..][1..] == steps[4..];
    assert steps[2..][1..] == steps[3..] && steps[1..][1..] == steps[2..];
    var d1 := Apply(sd.base, Clear);
    var d2 := Apply(d1, SetColorSource(sd.color));
    var d3 := Apply(d2, Rectangle(rect));
    calc {
      Run(sd.base, steps, statuses);
      Run(d1, steps[1..], statuses);
      Run(d2, steps[2..], statuses);
      Run(d3, steps[3..], statuses);
    }
    if statuses[0] == Success {
      var d4 := Apply(d3, Fill);
      calc {
        Run(d3, steps[3..], statuses);
        Run(d3, steps[4..], statuses[1..]);
        Run(d4, steps[5..], statuses[1..]);
      }
      if statuses[1] == Success {
        assert statuses[1..][1..] == [];
        assert Run(d4, steps[5..], statuses[1..]) == Run(d4, steps[6..], []) == Ok(d4);
      }
    }
  }

  /** The buffer a draw hands back, in both outcomes. */
  function HandedBack(r: Result<Borders, DrawErr>): Borders {
    match r
    case Ok(b) => b
    case Err(e) => e.borders
  }

  /**
   The fill region comes from the `borderG` argument alone: a session whose
   stored geometry differs paints exactly the same and differs only in the
   geometry it reports.
   */
  lemma DrawUsesArgumentGeometry(sd: SimpleDraw, borderG: Geometry, t: u32, statuses: seq<Status>, stored: Geometry)
    requires PaintFits(borderG, t) && |statuses| == 2
    ensures var sd2 := sd.(base := sd.base.(borders := sd.base.borders.(geometry := stored)));
      HandedBack(Draw(sd2, borderG, t, statuses))
        == HandedBack(Draw(sd, borderG, t, statuses)).(geometry := stored)
  {
  }

  /** A successful draw returns a buffer equal to the one it was given. */
  lemma DrawKeepsEquality(sd: SimpleDraw, borderG: Geometry, t: u32, statuses: seq<Status>)
    requires PaintFits(borderG, t) && |statuses| == 2
    ensures var r := Draw(sd, borderG, t, statuses);
      r.Ok? ==> Same(r.value, sd.base.borders)
  {
  }
}
