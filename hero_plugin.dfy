/**
 * `ElasticHeroPlugin`: the transition plugin that claims a view whose
 * elastic gesture is active, drives two simulated items and decides at the
 * end of the gesture whether the transition commits or cancels. The
 * modifier that tags a view with its elastic gesture is here too.
 */
module ElasticPlugin {
  import opened Wrappers
  import opened Edges
  import opened Geometry
  import opened ElasticShape

  /** Identity of a `UIView`. */
  type ViewId = nat

  /** Identity of a `UIPanGestureRecognizer`. */
  type RecognizerId = nat

  /** `UIGestureRecognizer.State`. */
  datatype GestureState = Possible | Began | Changed | Ended | Cancelled | Failed

  /** A recognizer that has begun or moved is an active drag. */
  predicate IsActive(s: GestureState) {
    s == Began || s == Changed
  }

  // ---------------------------------------------------------------------------
  // The `elastic` modifier

  /**
   * A value stored in a view's Hero target state: the elastic table, or a
   * value of some other type stored under the same key by someone else.
   */
  datatype Attribute = ElasticTable(table: map<Edge, RecognizerId>) | OtherValue(tag: string)

  /** Hero's target state, as the string-keyed store the modifier reads and writes. */
  type TargetState = map<string, Attribute>

  const ElasticKey := "elastic"

  /** `targetState["elastic"] as? [Edge: UIPanGestureRecognizer]`, read as empty when absent or of another type. */
  function ElasticTableOf(s: TargetState): map<Edge, RecognizerId> {
    if ElasticKey in s && s[ElasticKey].ElasticTable? then s[ElasticKey].table else map[]
  }

  /**
   * `HeroModifier.elastic(edge:gestureRecognizer:)` applied to a target state:
   * key `edge` of the elastic table is set to `g`, and nothing else changes.
   */
  function Elastic(edge: Edge, g: RecognizerId, s: TargetState): (r: TargetState)
    ensures r.Keys == s.Keys + {ElasticKey}
    ensures forall k :: k in s && k != ElasticKey ==> r[k] == s[k]
    ensures r[ElasticKey].ElasticTable?
    ensures ElasticTableOf(r).Keys == ElasticTableOf(s).Keys + {edge}
    ensures ElasticTableOf(r)[edge] == g
    ensures forall e :: e in ElasticTableOf(s) && e != edge ==> ElasticTableOf(r)[e] == ElasticTableOf(s)[e]
  {
    var table := ElasticTableOf(s);
    s[ElasticKey := ElasticTable(table[edge := g])]
  }

  /** Applying the same modifier twice is the same as applying it once. */
  lemma ElasticIdempotent(edge: Edge, g: RecognizerId, s: TargetState)
    ensures Elastic(edge, g, Elastic(edge, g, s)) == Elastic(edge, g, s)
  {
    var once := Elastic(edge, g, s);
    assert ElasticTableOf(once)[edge := g] == ElasticTableOf(once);
  }

  /** Modifiers for two different edges can be applied in either order. */
  lemma ElasticCommutes(e1: Edge, g1: RecognizerId, e2: Edge, g2: RecognizerId, s: TargetState)
    requires e1 != e2
    ensures Elastic(e1, g1, Elastic(e2, g2, s)) == Elastic(e2, g2, Elastic(e1, g1, s))
  {
    var t := ElasticTableOf(s);
    var t1: map<Edge, RecognizerId> := t[e1 := g1];
    var t2: map<Edge, RecognizerId> := t[e2 := g2];
    assert t2[e1 := g1] == t1[e2 := g2];
  }

  /** For one edge, the later modifier wins. */
  lemma ElasticLastWins(edge: Edge, g1: RecognizerId, g2: RecognizerId, s: TargetState)
    ensures Elastic(edge, g2, Elastic(edge, g1, s)) == Elastic(edge, g2, s)
  {
    var t := ElasticTableOf(s);
    var t1: map<Edge, RecognizerId> := t[edge := g1];
    assert t1[edge := g2] == t[edge := g2];
  }

  // ---------------------------------------------------------------------------
  // Targets

  /** The coordinate along the edge's axis: x for left and right, y otherwise. */
  function Primary(e: Edge, p: Point): real {
    if IsHorizontal(e) then p.x else p.y
  }

  /** The coordinate across the edge's axis. */
  function Cross(e: Edge, p: Point): real {
    if IsHorizontal(e) then p.y else p.x
  }

  /** The size of the bounds along the edge's axis. */
  function Extent(b: Rect, e: Edge): (d: real)
    ensures d >= 0.0
  {
    if IsHorizontal(e) then Width(b) else Height(b)
  }

  /**
   * The boundary line a transition from edge `e` opens toward: the side of
   * the bounds across from `e` (max x for left, min x for right, min y for
   * bottom, max y for top).
   */
  function OpenedLine(b: Rect, e: Edge): real {
    match e
    case Left => MaxX(b)
    case Right => MinX(b)
    case Bottom => MinY(b)
    case Top => MaxY(b)
  }

  /** `openedTarget(for:with:)`: `p` moved along the axis onto the opened line. */
  function OpenedTarget(b: Rect, e: Edge, p: Point): (r: Point)
    ensures Cross(e, r) == Cross(e, p)
    ensures Primary(e, r) == OpenedLine(b, e)
  {
    match e
    case Left => Point(MaxX(b), p.y)
    case Right => Point(MinX(b), p.y)
    case Bottom => Point(p.x, MinY(b))
    case Top => Point(p.x, MaxY(b))
  }

  /** `closedTarget(for:)`: the opened target of the opposite edge. */
  function ClosedTarget(b: Rect, e: Edge, p: Point): (r: Point)
    ensures Cross(e, r) == Cross(e, p)
    ensures Primary(e, r) == OpenedLine(b, Opposite(e))
  {
    OpenedTarget(b, Opposite(e), p)
  }

  /**
   * The line of `target(for:finished:)`: the closed line when `appearing`
   * equals `finished`, the opened line otherwise.
   */
  function TargetLine(b: Rect, e: Edge, appearing: bool, finished: bool): real {
    if appearing == finished then OpenedLine(b, Opposite(e)) else OpenedLine(b, e)
  }

  /** `target(for:finished:)`. */
  function Target(b: Rect, e: Edge, appearing: bool, p: Point, finished: bool): (r: Point)
    ensures Cross(e, r) == Cross(e, p)
    ensures Primary(e, r) == TargetLine(b, e, appearing, finished)
  {
    if appearing == finished then ClosedTarget(b, e, p) else OpenedTarget(b, e, p)
  }

  /** The opened and closed lines are the two sides of the bounds along the axis. */
  lemma OppositeLines(b: Rect, e: Edge)
    ensures var lo := if IsHorizontal(e) then MinX(b) else MinY(b);
            var hi := if IsHorizontal(e) then MaxX(b) else MaxY(b);
            (OpenedLine(b, e) == lo && OpenedLine(b, Opposite(e)) == hi) ||
            (OpenedLine(b, e) == hi && OpenedLine(b, Opposite(e)) == lo)
    ensures Abs(OpenedLine(b, e) - OpenedLine(b, Opposite(e))) == Extent(b, e)
  {
  }

  /** Projecting onto a boundary line twice changes nothing; only the cross coordinate matters. */
  lemma ProjectionIdempotent(b: Rect, e: Edge, p: Point)
    ensures OpenedTarget(b, e, OpenedTarget(b, e, p)) == OpenedTarget(b, e, p)
    ensures OpenedTarget(b, e, ClosedTarget(b, e, p)) == OpenedTarget(b, e, p)
    ensures ClosedTarget(b, e, OpenedTarget(b, e, p)) == ClosedTarget(b, e, p)
  {
  }

  /**
   * The finished and unfinished targets are the closed and opened targets in
   * some order, and they differ exactly when the bounds have extent along the axis.
   */
  lemma TargetsAreBothProjections(b: Rect, e: Edge, appearing: bool, p: Point)
    ensures var t, f := Target(b, e, appearing, p, true), Target(b, e, appearing, p, false);
            var c, o := ClosedTarget(b, e, p), OpenedTarget(b, e, p);
            (t == c && f == o) || (t == o && f == c)
    ensures Target(b, e, appearing, p, true) != Target(b, e, appearing, p, false) <==> Extent(b, e) > 0.0
  {
    OppositeLines(b, e);
    var t, f := Target(b, e, appearing, p, true), Target(b, e, appearing, p, false);
    if Extent(b, e) > 0.0 {
      assert Primary(e, t) != Primary(e, f);
    } else {
      assert Primary(e, t) == Primary(e, f) && Cross(e, t) == Cross(e, f);
      assert t == Point(t.x, t.y) && f == Point(f.x, f.y);
    }
  }

  // ---------------------------------------------------------------------------
  // Distances along the axis

  /** The distance of two points along the edge's axis. */
  function AxisDistance(e: Edge, a: Point, c: Point): (d: real)
    ensures d >= 0.0
  {
    Abs(Primary(e, a) - Primary(e, c))
  }

  /**
   * Points that share the cross coordinate (a point and one of its targets)
   * are as far apart as they are along the axis, so the Euclidean distance
   * of the source is `AxisDistance` there.
   */
  lemma SqDistAlongAxis(e: Edge, a: Point, c: Point)
    requires Cross(e, a) == Cross(e, c)
    ensures SqDist(a, c) == AxisDistance(e, a, c) * AxisDistance(e, a, c)
  {
    var d := Primary(e, a) - Primary(e, c);
    assert Abs(d) * Abs(d) == d * d;
  }

  lemma SquareOrder(u: real, v: real)
    requires 0.0 <= u && 0.0 <= v
    ensures u < v ==> u * u < v * v
    ensures v <= u ==> v * v <= u * u
  {
    if u < v {
      calc {
        u * u;
      <= { MulWeak(u, v, u); }
        v * u;
      < { MulStrict(u, v, v); }
        v * v;
      }
    } else {
      MulWeak(v, u, v);
      MulWeak(v, u, u);
    }
  }

  lemma MulStrict(u: real, v: real, c: real)
    requires u < v && c >= 0.0
    ensures u * c <= v * c && (c > 0.0 ==> u * c < v * c)
    ensures c * u <= c * v
  {
  }

  lemma MulWeak(u: real, v: real, c: real)
    requires u <= v && c >= 0.0
    ensures u * c <= v * c && c * u <= c * v
  {
  }

  // ---------------------------------------------------------------------------
  // The commit decision

  /**
   * The completion condition of `update`: the gesture has ended and both
   * items have left the bounds.
   */
  predicate Settled(ending: bool, b: Rect, shift: Point, drag: Point) {
    ending && !Contains(b, shift) && !Contains(b, drag)
  }

  /**
   * The decision of `update`: commit when the shift point is strictly
   * closer to its finished target than to its unfinished one; squared
   * distances order the pairs as the distances do.
   */
  predicate Commits(b: Rect, e: Edge, appearing: bool, p: Point) {
    SqDist(p, Target(b, e, appearing, p, true)) < SqDist(p, Target(b, e, appearing, p, false))
  }

  /** The decision compares distances along the axis to the two target lines. */
  lemma CommitsAlongAxis(b: Rect, e: Edge, appearing: bool, p: Point)
    ensures Commits(b, e, appearing, p) <==>
      Abs(Primary(e, p) - TargetLine(b, e, appearing, true)) < Abs(Primary(e, p) - TargetLine(b, e, appearing, false))
  {
    var t, f := Target(b, e, appearing, p, true), Target(b, e, appearing, p, false);
    SqDistAlongAxis(e, p, t);
    SqDistAlongAxis(e, p, f);
    SquareOrder(AxisDistance(e, p, t), AxisDistance(e, p, f));
  }

  /** A shift point as far from both targets cancels. */
  lemma TieCancels(b: Rect, e: Edge, appearing: bool, p: Point)
    requires Abs(Primary(e, p) - TargetLine(b, e, appearing, true)) == Abs(Primary(e, p) - TargetLine(b, e, appearing, false))
    ensures !Commits(b, e, appearing, p)
  {
    CommitsAlongAxis(b, e, appearing, p);
  }

  /**
   * With bounds of non-zero extent, the transition commits exactly when the
   * shift point lies strictly past the middle of the bounds on the finished side.
   */
  lemma CommitsPastMiddle(b: Rect, e: Edge, appearing: bool, p: Point)
    requires Extent(b, e) > 0.0
    ensures var fin, unfin := TargetLine(b, e, appearing, true), TargetLine(b, e, appearing, false);
            var mid := Primary(e, Center(b));
            Commits(b, e, appearing, p) <==> (if fin > unfin then Primary(e, p) > mid else Primary(e, p) < mid)
  {
    CommitsAlongAxis(b, e, appearing, p);
    OppositeLines(b, e);
  }

  // ---------------------------------------------------------------------------
  // Progress

  /** A `CGFloat` quotient: a value, or the NaN or infinity of a division by zero. */
  datatype Fraction = Finite(value: real) | NotFinite

  /**
   * The progress `update` reports: the distance of `current` from the
   * initial target over the distance of the final target from the initial
   * one. The source does not guard the division.
   */
  function Progress(b: Rect, e: Edge, appearing: bool, current: Point): (f: Fraction)
    ensures f.Finite? <==> Extent(b, e) > 0.0
  {
    OppositeLines(b, e);
    var initial := Target(b, e, appearing, current, false);
    var final := Target(b, e, appearing, current, true);
    var d := AxisDistance(e, final, initial);
    if d == 0.0 then NotFinite else Finite(AxisDistance(e, current, initial) / d)
  }

  lemma ProgressAtInitial(b: Rect, e: Edge, appearing: bool, current: Point)
    requires Extent(b, e) > 0.0
    requires Primary(e, current) == TargetLine(b, e, appearing, false)
    ensures Progress(b, e, appearing, current) == Finite(0.0)
  {
  }

  lemma ProgressAtFinal(b: Rect, e: Edge, appearing: bool, current: Point)
    requires Extent(b, e) > 0.0
    requires Primary(e, current) == TargetLine(b, e, appearing, true)
    ensures Progress(b, e, appearing, current) == Finite(1.0)
  {
    OppositeLines(b, e);
    var initial := Target(b, e, appearing, current, false);
    var final := Target(b, e, appearing, current, true);
    var d := AxisDistance(e, final, initial);
    assert AxisDistance(e, current, initial) == d && d > 0.0;
    assert d / d == 1.0;
  }

  /** The primary coordinate lies on the closed bounds, as after `clamp`. */
  predicate WithinAxis(b: Rect, e: Edge, p: Point) {
    if IsHorizontal(e) then MinX(b) <= p.x <= MaxX(b) else MinY(b) <= p.y <= MaxY(b)
  }

  lemma MulCancel(q: real, r: real, d: real)
    requires d > 0.0 && q * d <= r * d
    ensures q <= r
  {
    if q > r {
      MulStrict(r, q, d);
    }
  }

  lemma DivBetween(a: real, d: real)
    requires 0.0 <= a <= d && d > 0.0
    ensures 0.0 <= a / d <= 1.0
  {
    assert a / d * d == a;
    MulCancel(a / d, 1.0, d);
  }

  lemma DivMonotone(a1: real, a2: real, d: real)
    requires 0.0 <= a1 <= a2 && d > 0.0
    ensures a1 / d <= a2 / d
  {
    assert a1 / d * d == a1;
    assert a2 / d * d == a2;
    MulCancel(a1 / d, a2 / d, d);
  }

  /** For a point on the bounds, the progress lies in `[0, 1]`. */
  lemma ProgressInUnitInterval(b: Rect, e: Edge, appearing: bool, current: Point)
    requires Extent(b, e) > 0.0 && WithinAxis(b, e, current)
    ensures Progress(b, e, appearing, current).Finite?
    ensures 0.0 <= Progress(b, e, appearing, current).value <= 1.0
  {
    OppositeLines(b, e);
    var initial := Target(b, e, appearing, current, false);
    var final := Target(b, e, appearing, current, true);
    DivBetween(AxisDistance(e, current, initial), AxisDistance(e, final, initial));
  }

  /** The progress grows as the point moves along the bounds toward the final target. */
  lemma ProgressMonotone(b: Rect, e: Edge, appearing: bool, p: Point, q: Point)
    requires Extent(b, e) > 0.0 && WithinAxis(b, e, p) && WithinAxis(b, e, q)
    requires Abs(Primary(e, q) - TargetLine(b, e, appearing, true)) <= Abs(Primary(e, p) - TargetLine(b, e, appearing, true))
    ensures Progress(b, e, appearing, p).value <= Progress(b, e, appearing, q).value
  {
    OppositeLines(b, e);
    var ip := Target(b, e, appearing, p, false);
    var fp := Target(b, e, appearing, p, true);
    var iq := Target(b, e, appearing, q, false);
    var fq := Target(b, e, appearing, q, true);
    assert AxisDistance(e, fq, iq) == AxisDistance(e, fp, ip);
    DivMonotone(AxisDistance(e, p, ip), AxisDistance(e, q, iq), AxisDistance(e, fp, ip));
  }

  // ---------------------------------------------------------------------------
  // Gravity at release

  /** Below this speed the release direction comes from the touch position instead. */
  const SlowSpeed := 100.0

  /**
   * The vector whose sign picks the gravity direction: the release velocity,
   * or, when its length is below 100, the touch location minus the centre of
   * the bounds. Lengths compare as their squares do.
   */
  function ReleaseVector(velocity: Point, touch: Point, b: Rect): (v: Point)
    ensures SqDist(velocity, Zero) < SlowSpeed * SlowSpeed ==> v == Sub(touch, Center(b))
    ensures SqDist(velocity, Zero) >= SlowSpeed * SlowSpeed ==> v == velocity
  {
    if SqDist(velocity, Zero) < SlowSpeed * SlowSpeed then Sub(touch, Center(b)) else velocity
  }

  /**
   * The gravity direction of `pan`: a unit vector along the edge's axis,
   * positive exactly when the release vector's component on that axis is
   * positive (zero gives the negative direction).
   */
  function GravityDirection(e: Edge, v: Point): (g: Vector)
    ensures IsHorizontal(e) ==> g.dy == 0.0 && (g.dx == 1.0 || g.dx == -1.0)
    ensures !IsHorizontal(e) ==> g.dx == 0.0 && (g.dy == 1.0 || g.dy == -1.0)
    ensures IsHorizontal(e) ==> (g.dx == 1.0 <==> v.x > 0.0)
    ensures !IsHorizontal(e) ==> (g.dy == 1.0 <==> v.y > 0.0)
  {
    if IsHorizontal(e) then Vector(if v.x > 0.0 then 1.0 else -1.0, 0.0)
    else Vector(0.0, if v.y > 0.0 then 1.0 else -1.0)
  }

  /** Reversing a release vector with a non-zero axis component reverses the gravity. */
  lemma GravityReverses(e: Edge, v: Point)
    requires Primary(e, v) != 0.0
    ensures var g, h := GravityDirection(e, v), GravityDirection(e, Point(-v.x, -v.y));
            h.dx == -g.dx && h.dy == -g.dy
  {
  }

  /** A slow release to the right of centre, from a left-edge gesture, falls toward +x. */
  lemma SlowReleaseScenario()
    ensures var b := Rect(Point(0.0, 0.0), 300.0, 600.0);
            GravityDirection(Left, ReleaseVector(Point(5.0, 0.0), Point(200.0, 300.0), b)) == Vector(1.0, 0.0)
  {
  }

  // ---------------------------------------------------------------------------
  // Simulation parameters

  /** A `UIAttachmentBehavior` spring. */
  datatype Spring = Spring(length: real, frequency: real, damping: real)

  /**
   * The behaviours the plugin adds to its animator, as plain parameters:
   * boundary collision, the two items' resistances and elasticity, the drag
   * item's spring to the touch (its anchor, absent once removed), the shift
   * item's spring to the drag item, and the gravity field once released.
   */
  datatype Dynamics = Dynamics(
    collision: bool,
    dragResistance: real,
    shiftResistance: real,
    elasticity: real,
    dragAnchor: Option<Point>,
    dragSpring: Spring,
    shiftSpring: Spring,
    gravity: Option<Vector>)

  /** The behaviours `animate` sets up around the touch location. */
  function InitialDynamics(touch: Point): Dynamics {
    Dynamics(true, 30.0, 6.0, 0.0, Some(touch), Spring(0.0, 10.0, 1.0), Spring(50.0, 1.5, 0.4), None)
  }

  /**
   * The release: the touch spring and the collision are removed, the shift
   * spring shrinks to zero length, both resistances drop to zero and a
   * gravity field pulls along `g`.
   */
  function Released(d: Dynamics, g: Vector): (r: Dynamics)
    ensures !r.collision && r.dragAnchor.None? && r.gravity == Some(g)
    ensures r.dragResistance == 0.0 && r.shiftResistance == 0.0 && r.shiftSpring.length == 0.0
    ensures r.elasticity == d.elasticity && r.dragSpring == d.dragSpring
    ensures r.shiftSpring.frequency == d.shiftSpring.frequency && r.shiftSpring.damping == d.shiftSpring.damping
  {
    d.(collision := false, dragAnchor := None, shiftSpring := d.shiftSpring.(length := 0.0),
       dragResistance := 0.0, shiftResistance := 0.0, gravity := Some(g))
  }

  /** What `animate` returns to the host. */
  datatype Duration = Seconds(seconds: real) | Indefinite

  /** What `update` tells the host. */
  datatype HostCall = End | Cancel | UpdateProgress(progress: Fraction)

  // ---------------------------------------------------------------------------
  // The plugin

  class Plugin {
    var view: Option<ViewId>
    var edge: Edge
    var gestureRecognizer: Option<RecognizerId>
    var appearing: bool
    var ending: bool
    /** `shiftItem.onNewValue != nil`: moves of the shift item run `update`. */
    var listening: bool
    /** The plugin is the recognizer's action target, so gesture changes run `pan`. */
    var panTarget: bool
    /** The animator's behaviours; absent until `animate`. */
    var dynamics: Option<Dynamics>
    var elasticView: ShapeView?
    var dragCenter: Point
    var shiftCenter: Point
    /** `context.container.bounds`. */
    const bounds: Rect

    ghost predicate Valid()
      reads this, elasticView
    {
      && (elasticView != null ==> elasticView.Valid())
      && (dynamics.Some? ==> view.Some? && gestureRecognizer.Some? && elasticView != null)
      && (listening ==> dynamics.Some?)
      && (panTarget ==> dynamics.Some? && !ending)
      && (ending ==> dynamics.Some? && !panTarget)
    }

    constructor (containerBounds: Rect)
      ensures Valid()
      ensures bounds == containerBounds
      ensures view == None && edge == Left && gestureRecognizer == None && !appearing
      ensures !ending && !listening && !panTarget && dynamics == None && elasticView == null
      ensures dragCenter == Zero && shiftCenter == Zero
    {
      bounds := containerBounds;
      view := None;
      edge := Left;
      gestureRecognizer := None;
      appearing := false;
      ending := false;
      listening := false;
      panTarget := false;
      dynamics := None;
      elasticView := null;
      dragCenter := Zero;
      shiftCenter := Zero;
    }

    /**
     * `canAnimate(view:appearing:)`: a plugin that holds no view claims `v`
     * when the view's elastic table has an active recognizer, for the
     * recognizer's edge (its opposite when appearing). The table is searched
     * in no particular order.
     */
    method CanAnimate(v: ViewId, isAppearing: bool, target: Option<TargetState>, phaseOf: RecognizerId -> GestureState)
      returns (ok: bool)
      requires Valid()
      modifies this
      ensures Valid()
      ensures old(view).Some? ==> !ok
      ensures !ok ==> unchanged(this)
      ensures ok <==> (old(view).None? && target.Some? &&
        exists e :: e in ElasticTableOf(target.value) && IsActive(phaseOf(ElasticTableOf(target.value)[e])))
      ensures ok ==> (view == Some(v) && appearing == isAppearing &&
        exists e :: e in ElasticTableOf(target.value) && IsActive(phaseOf(ElasticTableOf(target.value)[e])) &&
          gestureRecognizer == Some(ElasticTableOf(target.value)[e]) &&
          edge == (if isAppearing then Opposite(e) else e))
      ensures dynamics == old(dynamics) && elasticView == old(elasticView) && ending == old(ending)
      ensures listening == old(listening) && panTarget == old(panTarget)
      ensures dragCenter == old(dragCenter) && shiftCenter == old(shiftCenter)
    {
      if view.Some? {
        return false;
      }
      if target.None? {
        return false;
      }
      var table := ElasticTableOf(target.value);
      var remaining := table.Keys;
      while remaining != {}
        invariant remaining <= table.Keys
        invariant forall e :: e in table && e !in remaining ==> !IsActive(phaseOf(table[e]))
        invariant unchanged(this)
        decreases remaining
      {
        var e :| e in remaining;
        var g := table[e];
        if phaseOf(g) == Began || phaseOf(g) == Changed {
          view := Some(v);
          edge := if isAppearing then Opposite(e) else e;
          appearing := isAppearing;
          gestureRecognizer := Some(g);
          return true;
        }
        remaining := remaining - {e};
      }
      return false;
    }

    /**
     * `animate(fromViews:toViews:)` for the first of the views, given its
     * frame: builds the renderer, starts both items at the unfinished
     * target of the touch, sets up the behaviours and starts listening to
     * the shift item and to the gesture. With no view it returns 0.
     */
    method Animate(frame: Option<Rect>, touch: Point) returns (duration: Duration)
      requires Valid() && dynamics.None?
      requires frame.Some? ==> view.Some? && gestureRecognizer.Some? && FitsUInt16(GridSizeFor(frame.value))
      modifies this
      ensures Valid()
      ensures frame.None? ==> duration == Seconds(0.0) && unchanged(this)
      ensures frame.Some? ==>
        var start := Target(bounds, edge, appearing, touch, false);
        && duration == Indefinite
        && elasticView != null && fresh(elasticView)
        && elasticView.frame == frame.value
        && elasticView.vertexBufferSize == GridSizeFor(frame.value)
        && elasticView.edge == edge
        && elasticView.viewState == InitialUniform.(transpose := TransposeFlag(edge), flip := FlipFlag(edge))
        && elasticView.touchPosition == touch
        && elasticView.shift == Sub(start, ClosedTarget(bounds, edge, start))
        && dragCenter == start && shiftCenter == start
        && dynamics == Some(InitialDynamics(touch))
        && listening && panTarget && !ending
      ensures view == old(view) && edge == old(edge) && appearing == old(appearing)
      ensures gestureRecognizer == old(gestureRecognizer)
    {
      if frame.None? {
        return Seconds(0.0);
      }
      var start := Target(bounds, edge, appearing, touch, false);
      var shape := NewRenderer(frame.value, edge, Sub(start, ClosedTarget(bounds, edge, start)), touch);
      elasticView := shape;
      dragCenter := start;
      shiftCenter := start;
      listening := true;
      dynamics := Some(InitialDynamics(touch));
      panTarget := true;
      return Indefinite;
    }

    /**
     * `update`, run when the simulation has moved the shift item to
     * `newShift` (and the drag item to `newDrag`). Once the gesture has
     * ended and both items are out of the bounds it decides commit or cancel
     * and stops listening; otherwise it updates the renderer and reports the
     * progress of the clamped shift point.
     */
    method Update(newShift: Point, newDrag: Point) returns (call: HostCall)
      requires Valid() && listening
      modifies this, elasticView
      ensures Valid()
      ensures shiftCenter == newShift && dragCenter == newDrag
      ensures elasticView == old(elasticView)
      ensures view == old(view) && edge == old(edge) && appearing == old(appearing)
      ensures gestureRecognizer == old(gestureRecognizer) && dynamics == old(dynamics)
      ensures ending == old(ending) && panTarget == old(panTarget)
      ensures elasticView.frame == old(elasticView.frame) && elasticView.edge == old(elasticView.edge)
      ensures elasticView.viewState == old(elasticView.viewState)
      ensures elasticView.vertexBufferSize == old(elasticView.vertexBufferSize)
      ensures elasticView.vertexBuffer == old(elasticView.vertexBuffer)
      ensures elasticView.indexBuffer == old(elasticView.indexBuffer)
      ensures Settled(ending, bounds, newShift, newDrag) ==>
        && call == (if Commits(bounds, edge, appearing, newShift) then End else Cancel)
        && !listening
        && elasticView.shift == old(elasticView.shift)
        && elasticView.touchPosition == old(elasticView.touchPosition)
      ensures !Settled(ending, bounds, newShift, newDrag) ==>
        var current := Clamp(newShift, bounds);
        && call == UpdateProgress(Progress(bounds, edge, appearing, current))
        && listening
        && elasticView.touchPosition == Clamp(newDrag, bounds)
        && elasticView.shift == Sub(current, ClosedTarget(bounds, edge, current))
    {
      shiftCenter := newShift;
      dragCenter := newDrag;
      if ending && !Contains(bounds, shiftCenter) && !Contains(bounds, dragCenter) {
        var p := shiftCenter;
        if Commits(bounds, edge, appearing, p) {
          call := End;
        } else {
          call := Cancel;
        }
        listening := false;
        return;
      }
      var current := Clamp(shiftCenter, bounds);
      var closed := ClosedTarget(bounds, edge, current);
      elasticView.touchPosition := Clamp(dragCenter, bounds);
      elasticView.shift := Sub(current, closed);
      call := UpdateProgress(Progress(bounds, edge, appearing, current));
    }

    /**
     * `pan`, run on each change of the gesture: a move re-anchors the touch
     * spring; any other state releases the items toward the gravity
     * direction and stops listening to the gesture.
     */
    method Pan(state: GestureState, touch: Point, velocity: Point)
      requires Valid() && panTarget
      modifies this
      ensures Valid()
      ensures state == Changed ==>
        && dynamics == Some(old(dynamics).value.(dragAnchor := Some(touch)))
        && panTarget && ending == old(ending)
      ensures state != Changed ==>
        && dynamics == Some(Released(old(dynamics).value, GravityDirection(edge, ReleaseVector(velocity, touch, bounds))))
        && ending && !panTarget
      ensures view == old(view) && edge == old(edge) && appearing == old(appearing)
      ensures gestureRecognizer == old(gestureRecognizer) && listening == old(listening)
      ensures elasticView == old(elasticView)
      ensures dragCenter == old(dragCenter) && shiftCenter == old(shiftCenter)
    {
      var d := dynamics.value;
      if state == Changed {
        dynamics := Some(d.(dragAnchor := Some(touch)));
      } else {
        panTarget := false;
        d := d.(collision := false, dragAnchor := None, shiftSpring := d.shiftSpring.(length := 0.0),
                dragResistance := 0.0, shiftResistance := 0.0);
        ending := true;
        var g := GravityDirection(edge, ReleaseVector(velocity, touch, bounds));
        dynamics := Some(d.(gravity := Some(g)));
      }
    }
  }

  /**
   * The renderer `animate` puts over the view: a mesh for `frame`, with the
   * edge, shift and touch position the plugin sets on it.
   */
  method NewRenderer(frame: Rect, e: Edge, shift: Point, touch: Point) returns (shape: ShapeView)
    requires FitsUInt16(GridSizeFor(frame))
    ensures fresh(shape) && shape.Valid()
    ensures shape.frame == frame && shape.vertexBufferSize == GridSizeFor(frame)
    ensures shape.edge == e && shape.shift == shift && shape.touchPosition == touch
    ensures shape.viewState == InitialUniform.(transpose := TransposeFlag(e), flip := FlipFlag(e))
  {
    shape := new ShapeView(frame);
    shape.shift := shift;
    shape.SetEdge(e);
    shape.touchPosition := touch;
  }

  /** While it has not settled, `update` reports a progress in `[0, 1]` for bounds of non-zero extent. */
  lemma UpdateProgressInUnitInterval(b: Rect, e: Edge, appearing: bool, shift: Point)
    requires Extent(b, e) > 0.0
    ensures var f := Progress(b, e, appearing, Clamp(shift, b));
            f.Finite? && 0.0 <= f.value <= 1.0
  {
    ProgressInUnitInterval(b, e, appearing, Clamp(shift, b));
  }

  /** A plugin that claimed nothing, asked to animate no views, returns a zero duration. */
  method UnclaimedAnimate(b: Rect, touch: Point) returns (duration: Duration)
    ensures duration == Seconds(0.0)
  {
    var plugin := new Plugin(b);
    duration := plugin.Animate(None, touch);
  }

  /** A second claim on a plugin that already holds a view is refused and changes nothing. */
  method SecondClaimRefused(b: Rect, v1: ViewId, v2: ViewId, target: TargetState, phaseOf: RecognizerId -> GestureState)
    returns (first: bool, second: bool)
    ensures !second
  {
    var plugin := new Plugin(b);
    first := plugin.CanAnimate(v1, false, Some(target), phaseOf);
    second := plugin.CanAnimate(v2, true, Some(target), phaseOf);
    assert first ==> plugin.view == Some(v1);
    if !first {
      assert plugin.view == None;
    }
  }
}
