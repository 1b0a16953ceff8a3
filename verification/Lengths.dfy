/** Points and lengths (length.go).  Every field is an unsigned 32-bit counter in the
    program; here it is a natural number, so a statement speaks about documents whose
    offsets do not wrap. */
module Lengths {
  /** Where an unsigned 32-bit counter wraps. */
  const WRAP := 0x1_0000_0000

  datatype Point = Point(row: nat, column: nat)

  datatype Length = Length(bytes: nat, extent: Point)

  const ZERO := Length(0, Point(0, 0))

  function PointAdd(a: Point, b: Point): Point {
    if b.row > 0 then Point(a.row + b.row, b.column)
    else Point(a.row, a.column + b.column)
  }

  function PointSub(a: Point, b: Point): Point {
    if a.row > b.row then Point(a.row - b.row, a.column)
    else if a.column >= b.column then Point(0, a.column - b.column)
    else Point(0, 0)
  }

  function Add(a: Length, b: Length): Length {
    Length(a.bytes + b.bytes, PointAdd(a.extent, b.extent))
  }

  function Sub(a: Length, b: Length): Length {
    Length(if a.bytes >= b.bytes then a.bytes - b.bytes else 0, PointSub(a.extent, b.extent))
  }

  function SaturatingSub(a: Length, b: Length): Length {
    if a.bytes > b.bytes then Sub(a, b) else ZERO
  }

  function Minus(a: nat, b: nat): nat {
    if a > b then a - b else 0
  }

  /** Extents compose: rows add, and a column is counted from the last row start. */
  lemma AddAssociative(a: Length, b: Length, c: Length)
    ensures Add(Add(a, b), c) == Add(a, Add(b, c))
  {
  }

  lemma AddZero(a: Length)
    ensures Add(a, ZERO) == a && Add(ZERO, a) == a
  {
  }
}
