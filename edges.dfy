/**
 * The `Edge` enumeration of the elastic transition: the screen edge a
 * gesture starts from, its opposite, its `Int` raw value and its
 * `UIRectEdge` counterpart.
 */
module Edges {
  import opened Wrappers

  /** Declared in this order, so the raw values are top 0, bottom 1, left 2, right 3. */
  datatype Edge = Top | Bottom | Left | Right

  /** Left and right edges move along the x axis; top and bottom along y. */
  predicate IsHorizontal(e: Edge) {
    e == Left || e == Right
  }

  function RawValue(e: Edge): (n: nat)
    ensures n < 4
    ensures n == 0 <==> e == Top
    ensures n == 1 <==> e == Bottom
    ensures n == 2 <==> e == Left
    ensures n == 3 <==> e == Right
  {
    match e
    case Top => 0
    case Bottom => 1
    case Left => 2
    case Right => 3
  }

  /** `Edge(rawValue:)`, the failable initializer of an `Int` enumeration. */
  function FromRawValue(n: int): (r: Option<Edge>)
    ensures r.Some? <==> 0 <= n < 4
    ensures r.Some? ==> RawValue(r.value) == n
  {
    if n == 0 then Some(Top)
    else if n == 1 then Some(Bottom)
    else if n == 2 then Some(Left)
    else if n == 3 then Some(Right)
    else None
  }

  lemma RawValueRoundTrip(e: Edge)
    ensures FromRawValue(RawValue(e)) == Some(e)
  {
  }

  lemma RawValueInjective(a: Edge, b: Edge)
    ensures RawValue(a) == RawValue(b) ==> a == b
  {
  }

  /** The edge on the other side of the same axis. */
  function Opposite(e: Edge): (r: Edge)
    ensures r != e
    ensures IsHorizontal(r) == IsHorizontal(e)
  {
    match e
    case Left => Right
    case Right => Left
    case Bottom => Top
    case Top => Bottom
  }

  lemma OppositeInvolution(e: Edge)
    ensures Opposite(Opposite(e)) == e
  {
  }

  lemma OppositeInjective(a: Edge, b: Edge)
    ensures Opposite(a) == Opposite(b) ==> a == b
  {
    OppositeInvolution(a);
    OppositeInvolution(b);
  }

  /** `UIRectEdge`, an option set of bits: top 1, left 2, bottom 4, right 8. */
  datatype RectEdge = RectEdge(rawValue: nat)

  const RectEdgeTop := RectEdge(1)
  const RectEdgeLeft := RectEdge(2)
  const RectEdgeBottom := RectEdge(4)
  const RectEdgeRight := RectEdge(8)

  /** Each edge goes to the single-bit `UIRectEdge` member of the same name. */
  function ToUIRectEdge(e: Edge): (r: RectEdge)
    ensures e == Top <==> r == RectEdgeTop
    ensures e == Left <==> r == RectEdgeLeft
    ensures e == Bottom <==> r == RectEdgeBottom
    ensures e == Right <==> r == RectEdgeRight
  {
    match e
    case Left => RectEdgeLeft
    case Right => RectEdgeRight
    case Bottom => RectEdgeBottom
    case Top => RectEdgeTop
  }

  lemma ToUIRectEdgeInjective(a: Edge, b: Edge)
    ensures ToUIRectEdge(a) == ToUIRectEdge(b) ==> a == b
  {
  }
}
