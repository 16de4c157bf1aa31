/** Shared vocabulary of the desktop model: optional values, points and
    extents, the desktop layout constants and the min/max clamp from which
    every viewport rule of the desktop is built. */
module Base {

  datatype Option<T> = None | Some(value: T)

  /** A top-left corner in viewport pixels. */
  datatype Pos = Pos(x: int, y: int)

  /** A width and a height in pixels. */
  datatype Size = Size(width: int, height: int)

  // Desktop geometry shared by clamping and icon placement (DESKTOP_LAYOUT).
  const TaskbarHeight: int := 40
  const IconWidth: int := 92
  const IconHeight: int := 96
  const IconGap: int := 14
  const DesktopPadding: int := 12

  function Min(a: int, b: int): int { if a <= b then a else b }

  function Max(a: int, b: int): int { if a >= b then a else b }

  /** `Math.min(Math.max(lo, v), Math.max(lo, hi))`, the shape of every clamp
      on the desktop: a range whose upper end falls below `lo` collapses onto
      `lo`, so the result is never below `lo`. */
  function ClampAxis(v: int, lo: int, hi: int): (r: int)
    ensures lo <= r <= Max(lo, hi)
    ensures lo <= v <= Max(lo, hi) ==> r == v
    ensures v < lo ==> r == lo
    ensures v > Max(lo, hi) ==> r == Max(lo, hi)
  {
    Min(Max(lo, v), Max(lo, hi))
  }

  /** JavaScript's `a || b` on numbers: a zero (or absent) `a` falls through. */
  function OrElse(a: int, b: int): int {
    if a != 0 then a else b
  }

  /** JavaScript's `a ?? b`: only an absent `a` falls through. */
  function Coalesce(a: Option<int>, b: int): int {
    if a.Some? then a.value else b
  }
}
