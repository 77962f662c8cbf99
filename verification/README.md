# Window borders of way-cooler, modelled in Dafny

This project models the border-decoration core of the way-cooler compositor
(`src/layout/core/borders/`). The core has three parts:

- **Border buffer** (`borders.rs`). The buffer derives a border's outer rectangle
  from a window's content rectangle. The thickness is taken on the left and top
  sides, and a 50-pixel title strip is added at the top. The buffer owns a
  zero-filled pixel buffer of `h * stride(w)` bytes. It reallocates that buffer
  only when the outer size changes. It reads its thickness and colours from
  configuration lookups.
- **Drawing session** (`draw/base.rs`). A `BaseDraw` moves a border buffer and
  its graphics context together. `check_cairo` turns the engine's status into
  either the session or a `DrawErr` that hands the buffer back. `finish`
  installs a geometry and ends the session.
- **Simple drawer** (`draw/simple_draw.rs`). It clears the surface, sets a
  colour and adds a rectangle. The rectangle starts half a thickness before
  the given geometry and is a full thickness larger. The drawer then checks
  the status, fills, and checks again. It stops at the first failed check. On
  success it returns the buffer at its original geometry.

Modules, one per file:

| file | module | models |
|---|---|---|
| `rust_types.dfy` | `RustTypes` | `u32`/`i32`, `Option`/`Result`, `as` casts, truncating `/` |
| `wlc.dfy` | `Wlc` | the compositor library's `Geometry`, `Point`, `Size`, output handle, stride function type |
| `border_config.dfy` | `BorderConfig` | `thickness`, `default_color`, `active_color` |
| `border_buffer.dfy` | `BorderBuffer` | `Borders`, `new`, `reallocate_buffer`, `color`, `set_color`, `PartialEq` |
| `draw_base.dfy` | `DrawBase` | `DrawErr`, `BaseDraw`, `check_cairo`, `finish`, the `Drawable::draw` contract |
| `simple_draw.dfy` | `SimpleDrawing` | `SimpleDraw::draw` |

The collaborators are modelled like this:

- **Configuration registry.** Each key's lookup is an input of type
  `Option<Option<real>>`: the key is missing, present but not numeric, or
  numeric.
- **`calculate_stride`.** It is a function-typed parameter `stride`. The only
  thing assumed about it is that the stride of the outer width fits `i32`
  (`Allocate` and `Allocatable` require it; see "## Left out").
- **Graphics engine.** The engine is opaque. Its paint operations are recorded
  on the surface as `strokes`: `Wipe` for a clear, and `Paint(colour, path)` for
  a fill. The status the engine reports at each check point is an input
  (`statuses`).

The `Drawable` trait becomes the predicate `DrawContract`. A draw may only add
strokes. It keeps the bytes, output, colour and title. An error always carries
a non-success status. `SimpleDrawing.Draw` proves that it meets this contract.
`DrawBase.Run` interprets a program of operations and check points. It stops at
the first check that does not see `Success`, which is what the source's
`try!(base.check_cairo())` does. `SimpleDrawing.DrawRunsProgram` proves that
`Draw` is `Run` applied to the program clear, colour, rectangle, check, fill,
check, followed by `finish`.

The model follows these details of the code:

- When the outer size is unchanged, `reallocate_buffer` returns the buffer
  unchanged. The stored origin is not refreshed either (`borders.rs:100-102`).
- `active_color` is `None` only when the key is missing. A non-numeric value
  gives the colour with packed value 0 (`borders.rs:163-175`).
- The simple drawer insets from its `border_g` argument, not from the stored
  geometry. The stored geometry is only restored at the end
  (`simple_draw.rs:32-36`, `simple_draw.rs:51`).
- A numeric configuration value saturates at `u32::MAX`, as Rust's `as u32`
  does.
- A thickness above `i32::MAX` wraps negative under `thickness as i32`, so
  the outer origin then moves right and down, and the paint rectangle's
  origin moves by the truncated half of that negative value.

## Model

| member | source | states |
|---|---|---|
| RustTypes.U32AsI32 | src/layout/core/borders/borders.rs:39-41 | `thickness as i32` keeps the value modulo 2^32 and is negative exactly when the thickness exceeds `i32::MAX` |
| RustTypes.TruncDiv | src/layout/core/borders/draw/simple_draw.rs:33-34 | signed `/` leaves a remainder smaller than the divisor, with the dividend's sign (truncation toward zero) |
| RustTypes.F64ToU32 | src/layout/core/borders/borders.rs:135-141 | the guarded `num as u32`: non-positive gives 0, in range gives the integer part, too large saturates at `u32::MAX` |
| BorderConfig.Resolve | src/layout/core/borders/borders.rs:133-142 | a lookup is absent exactly when the key is missing; a non-numeric value reads as 0; a number is cast as above |
| BorderConfig.Thickness | src/layout/core/borders/borders.rs:132-143 | thickness is 0 exactly when the key is missing, non-numeric, or below 1; otherwise it is the truncated value, saturating at `u32::MAX` |
| BorderConfig.DefaultColor | src/layout/core/borders/borders.rs:148-160 | missing or non-numeric `border_color` gives packed colour 0; a number gives the cast value; a non-zero colour needs a numeric value of at least 1 |
| BorderConfig.ActiveColor | src/layout/core/borders/borders.rs:163-175 | no active colour exactly when the key is missing; non-numeric gives `Some` of colour 0; a number gives `Some` of the cast value |
| BorderConfig.ActiveAgreesWithDefault | src/layout/core/borders/borders.rs:148-175 | the active and the default colour resolve the same lookup to the same colour |
| BorderBuffer.Outer | src/layout/core/borders/borders.rs:39-44 | outer size is `w + t`, `h + t + 50`; for `t <= i32::MAX` the outer origin is `(x - t, y - t - 50)`; above that `as i32` wraps and the origin is `(x + 2^32 - t, y + 2^32 - t - 50)` |
| BorderBuffer.OuterRoundTrip | src/layout/core/borders/borders.rs:39-44 | for every thickness, including one that wraps under `as i32`, the content rectangle is recovered from the outer rectangle by `Inner`, so the derivation loses nothing |
| BorderBuffer.OuterKeepsFarEdges | src/layout/core/borders/borders.rs:92-97 | for `t <= i32::MAX`, the outer rectangle grows only left by `t` and up by `t + 50`; its right and bottom edges are the content's |
| BorderBuffer.OuterExample | src/layout/core/borders/borders.rs:39-44 | content (10,10,100,50) with thickness 4 gives outer (6,-44,104,104) |
| BorderBuffer.Allocate | src/layout/core/borders/borders.rs:45-54 | the new surface has the outer width and height, stride `stride(w)`, `h * stride(w)` bytes, all zero, nothing painted |
| BorderBuffer.New | src/layout/core/borders/borders.rs:33-63 | `None` exactly when the thickness is 0; otherwise outer geometry, a fresh buffer backing it, the given output, no colour override and title "Hello World!" |
| BorderBuffer.ReallocateBuffer | src/layout/core/borders/borders.rs:86-115 | `None` exactly when the thickness is 0; same outer size returns the buffer unchanged, old origin included; a new size gives a fresh buffer and the new geometry with output, colour and title kept; the buffer invariant is preserved |
| BorderBuffer.ReallocateIdempotent | src/layout/core/borders/borders.rs:86-115 | reallocating twice for the same content geometry: the second call returns the first result unchanged |
| BorderBuffer.ReallocateAfterNew | src/layout/core/borders/borders.rs:33-115 | reallocating a newly created buffer for its own content geometry changes nothing |
| BorderBuffer.ReallocateAllocatesLikeNew | src/layout/core/borders/borders.rs:103-114 | on a size change, reallocation builds exactly what `new` builds, except that it keeps the old colour and title |
| BorderBuffer.ColorOf | src/layout/core/borders/borders.rs:180-182 | the colour is the override when one is set, else the configured default |
| BorderBuffer.SetColor | src/layout/core/borders/borders.rs:185-187 | only the colour override changes |
| BorderBuffer.SetColorThenColor | src/layout/core/borders/borders.rs:180-187 | after `set_color(c)`, `color()` yields `c`'s colour, or the default when `c` is `None` |
| BorderBuffer.SameIsEquivalence | src/layout/core/borders/borders.rs:202-206 | `PartialEq::eq`, modelled by the predicate `Same` (borders.rs:202-206): equality is reflexive, symmetric and transitive, and ignores surface, output, colour and title |
| DrawBase.New | src/layout/core/borders/draw/base.rs:39-44 | the session holds the given buffer and context unchanged |
| DrawBase.CheckCairo | src/layout/core/borders/draw/base.rs:50-55 | `Ok` exactly on `Success`, and then holds the same session; otherwise `Err` carries that exact status and the session's buffer |
| DrawBase.CheckCairoKeepsBorders | src/layout/core/borders/draw/base.rs:50-55 | in both outcomes the buffer handed on is the session's buffer, unmodified |
| DrawBase.Finish | src/layout/core/borders/draw/base.rs:58-61 | the returned buffer has geometry `g`; its surface, output, colour and title are the session's |
| DrawBase.FinishUndoesNew | src/layout/core/borders/draw/base.rs:39-61 | opening a session and finishing it at the buffer's own geometry returns that buffer |
| DrawBase.FinishDecidesEquality | src/layout/core/borders/draw/base.rs:58-61 | two sessions finished at the same geometry give equal buffers |
| DrawBase.Run | src/layout/core/borders/draw/simple_draw.rs:40-50 | a program succeeds exactly when every check sees `Success`; an error carries the first failing status; running only adds strokes and keeps the geometry |
| SimpleDrawing.PaintRect | src/layout/core/borders/draw/simple_draw.rs:33-36 | the paint size is `(w + t, h + t)`; for `t <= i32::MAX` the origin is `(x - t/2, y - t/2)`; above that `as i32` wraps negative, the truncating half moves the origin by `(2^32 - t)/2` right and down |
| SimpleDrawing.PaintRectSpan | src/layout/core/borders/draw/simple_draw.rs:33-36 | for `t <= i32::MAX`, the paint rectangle starts `t/2` before and ends `t - t/2` past the given one on each axis; an odd thickness puts the extra pixel on the far side |
| SimpleDrawing.PaintRectTruncates | src/layout/core/borders/draw/simple_draw.rs:33-34 | at thickness `u32::MAX` the cast gives -1 and the truncating `-1 / 2` is 0, so the paint origin stays put |
| SimpleDrawing.Program | src/layout/core/borders/draw/simple_draw.rs:40-50 | the draw program has exactly two check points |
| SimpleDrawing.Draw | src/layout/core/borders/draw/simple_draw.rs:31-51 | `Ok` exactly when both checks see `Success`; a first failure returns that status with the buffer cleared and never filled; a second failure returns that status with the buffer cleared and filled; success returns the original geometry with clear and fill applied; the `Drawable::draw` contract (base.rs:20-28), modelled by the predicate `DrawContract`, holds: drawing only adds strokes, keeps bytes, output, colour and title, and an error carries a non-success status |
| SimpleDrawing.DrawRunsProgram | src/layout/core/borders/draw/simple_draw.rs:40-51 | `draw` is clear, colour, rectangle, check, fill, check, run with the stop-at-first-failure discipline, then `finish` at the original geometry |
| SimpleDrawing.DrawUsesArgumentGeometry | src/layout/core/borders/draw/simple_draw.rs:31-36 | the painted region depends on the `border_g` argument alone; the stored geometry only decides the geometry handed back |
| SimpleDrawing.DrawKeepsEquality | src/layout/core/borders/draw/simple_draw.rs:32-51 | a successful draw returns a buffer equal to the one it was given |

## Left out

- Integer overflow: callers must keep the `+=`/`-=` arithmetic in range, which
  the `OuterFits` and `PaintFits` preconditions require. Debug builds panic on
  overflow; release builds wrap. Neither is modelled.
- Stride and allocation size: `calculate_stride(w)` must fit `i32`, which the
  `Allocatable` precondition requires. A larger stride turns negative under
  `as i32`, and that allocation fails.
- Registry lookups carry reals, so NaN and infinite `f64` values are not
  modelled.
- `calculate_stride` is a foreign call. It is a parameter.
- The registry mechanism is foreign. Its answers are inputs.
- Pixel contents are not modelled. Painting is the `strokes` journal, so a
  clear or fill does not change the zero bytes.
- Modelled abstractly: the `clear` and `set_color_source` helpers (their
  bodies are not part of this model), the colour-to-float conversion, and the
  `f64` casts passed to `rectangle`.
- `Color` is identified with its packed `u32`. The channel split of the
  colour type is not part of this model.
- Engine statuses are independent inputs. The engine's sticky error state is
  not modelled.
- `ImageSurface::create_for_data` is assumed to succeed. Its own error status
  is not modelled.
- `simple_draw.rs` reads `borders().thickness`, but `Borders` has no
  `thickness` field, only the associated function `Borders::thickness()`
  (`borders.rs:132`). `SimpleDrawing.Draw` takes the thickness as a parameter.
- `get_surface`, `get_geometry`, `set_geometry`, `get_output` and `title` are
  plain field reads and updates of the `Borders` datatype.
- `SimpleDraw::new` is the `SimpleDraw` datatype constructor.
- Traits are not used. `Renderable` is the set of `BorderBuffer` functions.
  `Drawable` is the `DrawContract` predicate, and its only implementation is
  the simple drawer.
- `Deref`/`DerefMut` to the context, the `Debug` impl, `Send`/`Sync`,
  `drop_data` and the `error!` logging are not modelled. They have no
  behaviour to state.
- The Lua module wiring and the Lua session struct are not modelled. They
  hold no border logic.
