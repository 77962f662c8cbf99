/**
 The drawing session: a border buffer moved together with the graphics
 context bound to its surface, the status check that must follow every
 engine operation, and the contract every border style's `draw` keeps.

 The graphics engine is opaque. Its paint operations are recorded on the
 surface as strokes, and the status it reports at a check point is an
 input to that check.
 */
module DrawBase {
  import opened RustTypes
  import opened Wlc
  import opened BorderConfig
  import opened BorderBuffer

  /** The engine's status after an operation; any value but `Success` is an error. */
  datatype Status = Success | Failure(code: nat)

  /** The one way drawing fails: an engine error, handing back the buffer that was being drawn on. */
  datatype DrawErr = Cairo(status: Status, borders: Borders)

  /** The engine's drawing state: the current source colour and the path built since the last fill. */
  datatype Context = Context(source: Color, path: seq<Geometry>)

  /** A live drawing session, owning both the buffer and the context drawing into it. */
  datatype BaseDraw = BaseDraw(borders: Borders, cairo: Context)

  /** `BaseDraw::new`: a session over the given buffer and context. */
  function New(borders: Borders, cairo: Context): (d: BaseDraw)
    ensures d.borders == borders && d.cairo == cairo
  {
    BaseDraw(borders, cairo)
  }

  /**
   `check_cairo`: the session itself while the engine reports success;
   otherwise the error carrying that exact status and the buffer, so that
   the buffer is not lost.
   */
  function CheckCairo(d: BaseDraw, status: Status): (r: Result<BaseDraw, DrawErr>)
    ensures r.Ok? <==> status == Success
    ensures r.Ok? ==> r.value == d
    ensures r.Err? ==> r.error.status == status && r.error.borders == d.borders
  {
    match status
    case Success => Ok(d)
    case _ => Err(Cairo(status, d.borders))
  }

  /** The buffer a session step hands on, in both outcomes. */
  function SessionBorders(r: Result<BaseDraw, DrawErr>): Borders {
    match r
    case Ok(d) => d.borders
    case Err(e) => e.borders
  }

  /** Checking the status never alters the buffer, whichever way it goes. */
  lemma CheckCairoKeepsBorders(d: BaseDraw, status: Status)
    ensures SessionBorders(CheckCairo(d, status)) == d.borders
  {
  }

  /** `finish`: ends the session, returning its buffer with geometry `g` installed. */
  function Finish(d: BaseDraw, g: Geometry): (b: Borders)
    ensures b.geometry == g
    ensures b.surface == d.borders.surface && b.output == d.borders.output
    ensures b.color == d.borders.color && b.title == d.borders.title
  {
    d.borders.(geometry := g)
  }

  /** Opening a session and finishing it at the buffer's own geometry gives the buffer back unchanged. */
  lemma FinishUndoesNew(b: Borders, cairo: Context)
    ensures Finish(New(b, cairo), b.geometry) == b
  {
  }

  /** Two sessions finished at the same geometry yield equal border buffers. */
  lemma FinishDecidesEquality(d1: BaseDraw, d2: BaseDraw, g: Geometry)
    ensures Same(Finish(d1, g), Finish(d2, g))
  {
  }

  /** Records a paint operation on the session's surface. */
  function AddStroke(d: BaseDraw, s: Stroke): (r: BaseDraw)
    ensures r.borders.surface.strokes == d.borders.surface.strokes + [s]
  {
    d.(borders := d.borders.(surface := d.borders.surface.(strokes := d.borders.surface.strokes + [s])))
  }

  /** The session operations a drawer issues between checks. */
  datatype Op =
    | Clear                       // erase the whole surface
    | SetColorSource(c: Color)    // choose the paint colour
    | Rectangle(rect: Geometry)   // add a rectangle to the path
    | Fill                        // paint the path with the colour and empty the path

  /** The effect of one session operation. */
  function Apply(d: BaseDraw, op: Op): BaseDraw {
    match op
    case Clear => AddStroke(d, Wipe)
    case SetColorSource(c) => d.(cairo := d.cairo.(source := c))
    case Rectangle(rect) => d.(cairo := d.cairo.(path := d.cairo.path + [rect]))
    case Fill => AddStroke(d, Paint(d.cairo.source, d.cairo.path)).(cairo := d.cairo.(path := []))
  }

  /** A drawer's program: operations, and the status checks placed between them. */
  datatype Step = Do(op: Op) | Check

  /** The number of check points in a program. */
  function Checks(steps: seq<Step>): nat {
    if steps == [] then 0 else (if steps[0].Check? then 1 else 0) + Checks(steps[1..])
  }

  predicate AllSucceed(statuses: seq<Status>) {
    forall i | 0 <= i < |statuses| :: statuses[i] == Success
  }

  /** True when `s` is the first status in `statuses` that is not `Success`. */
  predicate FirstFailure(statuses: seq<Status>, s: Status) {
    exists k | 0 <= k < |statuses| :: statuses[k] == s && s != Success && AllSucceed(statuses[..k])
  }

  /**
   True when `after` is `before` with paint added: the same buffer bytes,
   output, colour and title, and the strokes only extended.
   */
  predicate Drew(before: Borders, after: Borders) {
    && after.surface == before.surface.(strokes := after.surface.strokes)
    && before.surface.strokes <= after.surface.strokes
    && after.output == before.output
    && after.color == before.color
    && after.title == before.title
  }

  /**
   Runs a program, observing `statuses[i]` at the i-th check point, and
   stops with the error at the first check that does not see `Success`:
   the discipline `try!(base.check_cairo())` imposes after engine calls.
   */
  function Run(d: BaseDraw, steps: seq<Step>, statuses: seq<Status>): (r: Result<BaseDraw, DrawErr>)
    requires |statuses| == Checks(steps)
    ensures r.Ok? <==> AllSucceed(statuses)
    ensures r.Err? ==> FirstFailure(statuses, r.error.status)
    ensures Drew(d.borders, SessionBorders(r))
    ensures SessionBorders(r).geometry == d.borders.geometry
    decreases |steps|
  {
    if steps == [] then Ok(d)
    else if steps[0].Check? then
      match CheckCairo(d, statuses[0])
      case Ok(d1) =>
        var r := Run(d1, steps[1..], statuses[1..]);
        assert r.Err? ==> FirstFailure(statuses, r.error.status) by {
          if r.Err? {
            var k :| 0 <= k < |statuses[1..]| && statuses[1..][k] == r.error.status
                     && r.error.status != Success && AllSucceed(statuses[1..][..k]);
            assert statuses[..k + 1] == [statuses[0]] + statuses[1..][..k];
          }
        }
        r
      case Err(e) =>
        assert statuses[..0] == [];
        Err(e)
    else
      Run(Apply(d, steps[0].op), steps[1..], statuses)
  }

  /**
   The `Drawable::draw` contract: a style consumes a session and returns
   either a finished buffer or an engine error carrying the buffer; in both
   cases drawing only paints, leaving bytes, output, colour and title as
   they were.
   */
  predicate DrawContract(before: BaseDraw, r: Result<Borders, DrawErr>) {
    match r
    case Ok(b) => Drew(before.borders, b)
    case Err(e) => e.status != Success && Drew(before.borders, e.borders)
  }
}
