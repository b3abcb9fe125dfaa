/**
 * The sides of a patch (Side<D>): west, east, south, north, bottom, top, numbered 0..5.
 * Side s lies on axis s / 2, on the lower end of that axis when s is even.
 */
module Sides {

  datatype Side = West | East | South | North | Bottom | Top

  function Index(s: Side): (i: nat)
    ensures i < 6
  {
    match s
    case West => 0
    case East => 1
    case South => 2
    case North => 3
    case Bottom => 4
    case Top => 5
  }

  function FromIndex(i: nat): (s: Side)
    requires i < 6
    ensures Index(s) == i
  {
    if i == 0 then West else if i == 1 then East else if i == 2 then South
    else if i == 3 then North else if i == 4 then Bottom else Top
  }

  function Axis(s: Side): (a: nat)
    ensures a < 3
  {
    Index(s) / 2
  }

  predicate IsLower(s: Side)
  {
    Index(s) % 2 == 0
  }

  /** Side<3>::opposite(). */
  function Opposite(s: Side): (o: Side)
    ensures Axis(o) == Axis(s) && (IsLower(o) <==> !IsLower(s))
  {
    match s
    case West => East
    case East => West
    case South => North
    case North => South
    case Bottom => Top
    case Top => Bottom
  }

  /** The sides of a 2-D patch. */
  predicate IsSide2(s: Side)
  {
    Index(s) < 4
  }
}
