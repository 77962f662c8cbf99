/**
 The border buffer of one decorated window: its outer geometry, derived
 from the window's content geometry, and the zero-filled pixel buffer that
 backs it, together with the policy for reallocating that buffer.
 */
module BorderBuffer {
  import opened RustTypes
  import opened Wlc
  import opened BorderConfig

  /** Height of the title strip above the top border. */
  const TITLE_OFFSET: u32 := 50

  /** The title every new border buffer starts with. */
  const DEFAULT_TITLE: string := "Hello World!"

  /**
   A paint operation applied to a buffer. Pixel values are not modelled:
   a buffer's painted state is the list of operations applied to it since
   it was allocated.
   */
  datatype Stroke =
    | Wipe                                          // the whole surface cleared
    | Paint(source: Color, region: seq<Geometry>)   // a path filled with a colour

  /** A 32-bit ARGB image surface over an owned byte buffer. */
  datatype Surface = Surface(width: u32, height: u32, stride: u32, data: seq<u8>, strokes: seq<Stroke>)

  datatype Borders = Borders(
    surface: Surface,
    geometry: Geometry,
    output: Output,
    color: Option<Color>,   // override of the default colour
    title: string)

  /** True when every step of the outer-geometry arithmetic stays within its Rust type. */
  predicate OuterFits(g: Geometry, t: u32) {
    var dt := U32AsI32(t);
    && InI32(g.origin.x - dt)
    && InI32(g.origin.y - dt)
    && InI32(g.origin.y - dt - TITLE_OFFSET)
    && InU32(g.size.w + t)
    && InU32(g.size.h + t + TITLE_OFFSET)
  }

  /**
   The border's outer rectangle for content geometry `g` and thickness `t`:
   the left and top edges move out by `t`, the top by the title strip as
   well, and the size grows by the same amounts.
   */
  function Outer(g: Geometry, t: u32): (o: Geometry)
    requires OuterFits(g, t)
    ensures o.size.w == g.size.w + t
    ensures o.size.h == g.size.h + t + TITLE_OFFSET
    ensures t <= I32_MAX ==> o.origin == Point(g.origin.x - t, g.origin.y - t - TITLE_OFFSET)
    ensures t > I32_MAX ==>
      o.origin == Point(g.origin.x + (TWO_POW_32 - t), g.origin.y + (TWO_POW_32 - t) - TITLE_OFFSET)
  {
    var dt := U32AsI32(t);
    var x := g.origin.x - dt;
    var y := g.origin.y - dt;
    var y := y - TITLE_OFFSET;
    var w := g.size.w + t;
    var h := g.size.h + t;
    var h := h + TITLE_OFFSET;
    Geometry(Point(x, y), Size(w, h))
  }

  /**
   The content rectangle whose outer rectangle is `o`: the inverse of
   `Outer`, undoing the same wrapped `thickness as i32` on the origin.
   */
  function Inner(o: Geometry, t: u32): (g: Geometry)
    requires InI32(o.origin.x + U32AsI32(t)) && InI32(o.origin.y + U32AsI32(t) + TITLE_OFFSET)
    requires t + TITLE_OFFSET <= o.size.h && t <= o.size.w
  {
    Geometry(Point(o.origin.x + U32AsI32(t), o.origin.y + U32AsI32(t) + TITLE_OFFSET),
             Size(o.size.w - t, o.size.h - t - TITLE_OFFSET))
  }

  /** The content geometry is recoverable from the outer one, for every thickness: no information is lost. */
  lemma OuterRoundTrip(g: Geometry, t: u32)
    requires OuterFits(g, t)
    ensures var o := Outer(g, t);
      && InI32(o.origin.x + U32AsI32(t)) && InI32(o.origin.y + U32AsI32(t) + TITLE_OFFSET)
      && t + TITLE_OFFSET <= o.size.h && t <= o.size.w
      && Inner(o, t) == g
  {
  }

  /**
   The outer rectangle only grows up and to the left: its right and bottom
   edges coincide with the content's, so the title strip enlarges the top
   alone and the thickness never reaches past the content on the far sides.
   */
  lemma OuterKeepsFarEdges(g: Geometry, t: u32)
    requires OuterFits(g, t) && t <= I32_MAX
    ensures var o := Outer(g, t);
      && o.origin.x + o.size.w == g.origin.x + g.size.w
      && o.origin.y + o.size.h == g.origin.y + g.size.h
      && g.origin.x - o.origin.x == t
      && g.origin.y - o.origin.y == t + TITLE_OFFSET
  {
  }

  /** Example: content (10,10,100,50) with thickness 4 has outer (6,-44,104,104). */
  lemma OuterExample()
    ensures OuterFits(Geometry(Point(10, 10), Size(100, 50)), 4)
    ensures Outer(Geometry(Point(10, 10), Size(100, 50)), 4) == Geometry(Point(6, -44), Size(104, 104))
  {
  }

  /** True when the surface is exactly the buffer `stride` prescribes for a rectangle of size `size`. */
  predicate Backs(s: Surface, size: Size, stride: Stride) {
    && s.width == size.w
    && s.height == size.h
    && s.stride == stride(size.w)
    && |s.data| == size.h * s.stride
  }

  /** The invariant of a border buffer: its surface always matches its geometry's size. */
  predicate Valid(b: Borders, stride: Stride) {
    Backs(b.surface, b.geometry.size, stride)
  }

  /** True when the surface is freshly allocated: all bytes zero, nothing painted. */
  predicate Fresh(s: Surface) {
    && (forall i | 0 <= i < |s.data| :: s.data[i] == 0)
    && s.strokes == []
  }

  /** Allocates the zero-filled buffer of `h * stride(w)` bytes for a rectangle of size `size`. */
  function Allocate(size: Size, stride: Stride): (s: Surface)
    requires stride(size.w) <= I32_MAX
    ensures Backs(s, size, stride)
    ensures Fresh(s)
  {
    var n := size.h * stride(size.w);
    Surface(size.w, size.h, stride(size.w), seq(n, _ => 0), [])
  }

  /**
   True when a buffer can be built for content geometry `g` under this
   configuration: either there are no borders, or the outer geometry and
   its stride fit their Rust types.
   */
  predicate Allocatable(g: Geometry, reg: Registry, stride: Stride) {
    var t := Thickness(reg);
    t == 0 || (OuterFits(g, t) && stride(Outer(g, t).size.w) <= I32_MAX)
  }

  /**
   `Renderable::new`: no borders when the thickness is 0; otherwise a fresh
   buffer sized for the outer geometry, no colour override and the default
   title.
   */
  function New(g: Geometry, output: Output, reg: Registry, stride: Stride): (r: Option<Borders>)
    requires Allocatable(g, reg, stride)
    ensures r.None? <==> Thickness(reg) == 0
    ensures r.Some? ==>
      && r.value.geometry == Outer(g, Thickness(reg))
      && Valid(r.value, stride)
      && Fresh(r.value.surface)
      && r.value.output == output
      && r.value.color == None
      && r.value.title == DEFAULT_TITLE
  {
    var t := Thickness(reg);
    if t == 0 then None
    else
      var o := Outer(g, t);
      Some(Borders(Allocate(o.size, stride), o, output, None, DEFAULT_TITLE))
  }

  /**
   `Renderable::reallocate_buffer`: no borders when the thickness is 0; the
   same buffer, geometry and all, when the outer size is unchanged; and
   otherwise a fresh buffer and the new outer geometry, with the output,
   colour and title carried over.
   */
  function ReallocateBuffer(b: Borders, g: Geometry, reg: Registry, stride: Stride): (r: Option<Borders>)
    requires Allocatable(g, reg, stride)
    ensures r.None? <==> Thickness(reg) == 0
    ensures r.Some? && Outer(g, Thickness(reg)).size == b.geometry.size ==> r.value == b
    ensures r.Some? && Outer(g, Thickness(reg)).size != b.geometry.size ==>
      && r.value.geometry == Outer(g, Thickness(reg))
      && Valid(r.value, stride)
      && Fresh(r.value.surface)
      && r.value.output == b.output
      && r.value.color == b.color
      && r.value.title == b.title
    ensures r.Some? && Valid(b, stride) ==> Valid(r.value, stride)
  {
    var t := Thickness(reg);
    if t == 0 then None
    else
      var o := Outer(g, t);
      if o.size.w == b.geometry.size.w && o.size.h == b.geometry.size.h then Some(b)
      else Some(b.(geometry := o, surface := Allocate(o.size, stride)))
  }

  /** Reallocating twice for the same content geometry: the second call keeps the buffer. */
  lemma ReallocateIdempotent(b: Borders, g: Geometry, reg: Registry, stride: Stride)
    requires Allocatable(g, reg, stride)
    ensures var r := ReallocateBuffer(b, g, reg, stride);
      r.Some? ==> ReallocateBuffer(r.value, g, reg, stride) == r
  {
  }

  /** Reallocating a newly created buffer for its own content geometry changes nothing. */
  lemma ReallocateAfterNew(g: Geometry, output: Output, reg: Registry, stride: Stride)
    requires Allocatable(g, reg, stride)
    ensures var r := New(g, output, reg, stride);
      r.Some? ==> ReallocateBuffer(r.value, g, reg, stride) == r
  {
  }

  /**
   When the size changes, reallocation builds exactly the buffer `New`
   builds, keeping only the old colour override and title.
   */
  lemma ReallocateAllocatesLikeNew(b: Borders, g: Geometry, reg: Registry, stride: Stride)
    requires Allocatable(g, reg, stride)
    requires Thickness(reg) != 0 && Outer(g, Thickness(reg)).size != b.geometry.size
    ensures ReallocateBuffer(b, g, reg, stride)
         == Some(New(g, b.output, reg, stride).value.(color := b.color, title := b.title))
  {
  }

  /** `Borders::color`: the override when one is set, the configured default otherwise. */
  function ColorOf(b: Borders, reg: Registry): (c: Color)
    ensures b.color.Some? ==> c == b.color.value
    ensures b.color.None? ==> c == DefaultColor(reg)
  {
    b.color.UnwrapOr(DefaultColor(reg))
  }

  /** `Borders::set_color`: replaces the override and nothing else. */
  function SetColor(b: Borders, color: Option<Color>): (r: Borders)
    ensures r.color == color
    ensures r.surface == b.surface && r.geometry == b.geometry
    ensures r.output == b.output && r.title == b.title
  {
    b.(color := color)
  }

  /** Setting an override and then asking for the colour yields the override; clearing it yields the default. */
  lemma SetColorThenColor(b: Borders, color: Option<Color>, reg: Registry)
    ensures ColorOf(SetColor(b, color), reg) == color.UnwrapOr(DefaultColor(reg))
  {
  }

  /** `PartialEq::eq`: two border buffers are equal when their geometries are, whatever their buffers hold. */
  predicate Same(a: Borders, b: Borders) {
    a.geometry == b.geometry
  }

  /** Border equality is an equivalence that ignores the buffer, the output, the colour and the title. */
  lemma SameIsEquivalence(a: Borders, b: Borders, c: Borders, s: Surface, o: Output, col: Option<Color>, t: string)
    ensures Same(a, a)
    ensures Same(a, b) <==> Same(b, a)
    ensures Same(a, b) && Same(b, c) ==> Same(a, c)
    ensures Same(a, a.(surface := s, output := o, color := col, title := t))
  {
  }
}
