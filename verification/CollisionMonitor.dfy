// The collision monitor: choosing the safest velocity among the triggered polygons, and
// publishing it until the robot has been told to stop for long enough.
module CollisionMonitors {
  import opened Wrappers
  import opened RealOrder

  datatype Velocity = Velocity(x: real, y: real, tw: real)

  const ZERO: Velocity := Velocity(0.0, 0.0, 0.0)

  function Sq(r: real): real {
    r * r
  }

  function Norm2(v: Velocity): real {
    Sq(v.x) + Sq(v.y) + Sq(v.tw)
  }

  // Velocity::operator<
  predicate Slower(v: Velocity, w: Velocity) {
    Norm2(v) < Norm2(w)
  }

  // Velocity::operator*
  function Scale(v: Velocity, mul: real): Velocity {
    Velocity(v.x * mul, v.y * mul, v.tw * mul)
  }

  predicate IsZero(v: Velocity) {
    v.x == 0.0 && v.y == 0.0 && v.tw == 0.0
  }

  datatype ActionType = DoNothing | Stop | Slowdown | Approach | Limit

  datatype Action = Action(actionType: ActionType, reqVel: Velocity, polygonName: string)

  // A polygon as process sees it in one cycle. collisionTime is the result of
  // getCollisionTime, pointsInside that of getPointsInside.
  datatype Shape = Shape(
    name: string, enabled: bool, shapeSet: bool, actionType: ActionType,
    pointsInside: int, minPoints: int, slowdownRatio: real,
    linearLimit: real, angularLimit: real,
    collisionTime: real, timeBeforeCollision: real)

  // The commanded velocity with its linear speed, std::hypot(x, y).
  datatype Command = Command(vel: Velocity, speed: real)

  predicate ValidCommand(c: Command) {
    c.speed >= 0.0 && Sq(c.speed) == Sq(c.vel.x) + Sq(c.vel.y)
  }

  function Abs(r: real): real {
    if r < 0.0 then -r else r
  }

  function Min(a: real, b: real): real {
    if b < a then b else a
  }

  function Clamp01(r: real): real {
    if r < 0.0 then 0.0 else if r > 1.0 then 1.0 else r
  }

  // The most restrictive ratio of a LIMIT polygon.
  function LimitRatio(p: Shape, c: Command): real {
    var r1 := if c.speed != 0.0 then Min(1.0, p.linearLimit / c.speed) else 1.0;
    var r2 := if c.vel.tw != 0.0 then Min(r1, p.angularLimit / Abs(c.vel.tw)) else r1;
    Clamp01(r2)
  }

  // The factor a triggered polygon asks for; None if it is not triggered. An APPROACH polygon
  // with a time of zero divides by zero: infinity and NaN are never slower, so it asks nothing.
  function Demand(p: Shape, c: Command): Option<real> {
    if !p.enabled || !p.shapeSet then None
    else match p.actionType
      case DoNothing => None
      case Stop => if p.pointsInside >= p.minPoints then Some(0.0) else None
      case Slowdown => if p.pointsInside >= p.minPoints then Some(p.slowdownRatio) else None
      case Limit => if p.pointsInside >= p.minPoints then Some(LimitRatio(p, c)) else None
      case Approach =>
        if p.collisionTime >= 0.0 && p.timeBeforeCollision != 0.0
        then Some(p.collisionTime / p.timeBeforeCollision) else None
  }

  // ---------- The selected factor ----------

  // Polygon k is triggered and asks for d.
  predicate Asks(ps: seq<Shape>, c: Command, k: int, d: real) {
    0 <= k < |ps| && Demand(ps[k], c) == Some(d)
  }

  ghost predicate Asked(ps: seq<Shape>, c: Command, d: real) {
    exists k :: Asks(ps, c, k, d)
  }

  // No polygon asks for less than the magnitude of r.
  ghost predicate NoneBelow(ps: seq<Shape>, c: Command, r: real) {
    forall k, d :: Asks(ps, c, k, d) ==> Abs(r) <= Abs(d)
  }

  // Ratios are not validated and only lengths are compared: the smaller magnitude wins, the
  // earlier polygon on equal ones.
  function Pick(r: real, d: Option<real>): real {
    match d
    case None => r
    case Some(v) => if Abs(v) < Abs(r) then v else r
  }

  ghost function Factor(ps: seq<Shape>, c: Command): real {
    if ps == [] then 1.0 else Pick(Factor(ps[..|ps| - 1], c), Demand(ps[|ps| - 1], c))
  }

  // r is what the first of the polygons asks for whose magnitude is least and below 1, or 1.
  ghost predicate FirstLeast(ps: seq<Shape>, c: Command, r: real) {
    && NoneBelow(ps, c, r)
    && (r == 1.0 || (Abs(r) < 1.0 && exists k :: AsksFirst(ps, c, k, r)))
  }

  ghost predicate AsksFirst(ps: seq<Shape>, c: Command, k: int, r: real) {
    Asks(ps, c, k, r) && forall j, d :: j < k && Asks(ps, c, j, d) ==> Abs(r) < Abs(d)
  }

  // Whatever the signs: the magnitude of the factor is the minimum of 1 and the magnitudes
  // asked for, and the factor is the first one of that magnitude.
  lemma {:induction false} FactorIsFirstLeast(ps: seq<Shape>, c: Command)
    ensures FirstLeast(ps, c, Factor(ps, c))
    decreases |ps|
  {
    hide Demand, AsksFirst;
    if ps != [] {
      var n := |ps| - 1;
      var r, q := Factor(ps[..n], c), Factor(ps, c);
      FactorIsFirstLeast(ps[..n], c);
      forall k, d | Asks(ps, c, k, d)
        ensures Abs(q) <= Abs(d)
      {
        assert k < n ==> Asks(ps[..n], c, k, d);
      }
      if q != r {
        LastAsksFirst(ps, c, r);
      } else if r != 1.0 {
        var k :| AsksFirst(ps[..n], c, k, r);
        StillAsksFirst(ps, c, k, r);
      }
    }
  }

  lemma LastAsksFirst(ps: seq<Shape>, c: Command, r: real)
    requires |ps| > 0 && NoneBelow(ps[..|ps| - 1], c, r)
    requires Pick(r, Demand(ps[|ps| - 1], c)) != r
    ensures AsksFirst(ps, c, |ps| - 1, Pick(r, Demand(ps[|ps| - 1], c)))
  {
    hide Demand;
    var n := |ps| - 1;
    forall j, d | j < n && Asks(ps, c, j, d)
      ensures Abs(Pick(r, Demand(ps[n], c))) < Abs(d)
    {
      assert Asks(ps[..n], c, j, d);
    }
  }

  lemma StillAsksFirst(ps: seq<Shape>, c: Command, k: int, r: real)
    requires |ps| > 0 && AsksFirst(ps[..|ps| - 1], c, k, r)
    ensures AsksFirst(ps, c, k, r)
  {
    hide Demand;
    var init := ps[..|ps| - 1];
    forall j, d | j < k && Asks(ps, c, j, d)
      ensures Abs(r) < Abs(d)
    {
      assert Asks(init, c, j, d);
    }
  }

  // A FirstLeast factor is unique.
  lemma FirstLeastUnique(ps: seq<Shape>, c: Command, r: real, q: real)
    requires FirstLeast(ps, c, r) && FirstLeast(ps, c, q)
    ensures r == q
  {
    hide Asks;
    LeastMagnitude(ps, c, r, q);
    LeastMagnitude(ps, c, q, r);
    if r != 1.0 && q != 1.0 {
      var k :| AsksFirst(ps, c, k, r);
      var j :| AsksFirst(ps, c, j, q);
      SameOnce(ps, c, k, r, q);
    }
  }

  lemma LeastMagnitude(ps: seq<Shape>, c: Command, r: real, q: real)
    requires FirstLeast(ps, c, r) && FirstLeast(ps, c, q)
    ensures Abs(r) <= Abs(q)
  {
    hide Asks;
    if q != 1.0 {
      var j :| AsksFirst(ps, c, j, q);
    }
  }

  // ---------- The smallest factor ----------

  // The smallest of 1 and all factors asked for.
  ghost function MinDemand(ps: seq<Shape>, c: Command): real {
    if ps == [] then 1.0
    else
      var r := MinDemand(ps[..|ps| - 1], c);
      match Demand(ps[|ps| - 1], c)
      case None => r
      case Some(d) => Min(r, d)
  }

  // MinDemand is a lower bound of 1 and the factors, and one of them.
  lemma {:induction false} MinDemandIsMinimum(ps: seq<Shape>, c: Command)
    ensures MinDemand(ps, c) <= 1.0
    ensures forall k, d :: Asks(ps, c, k, d) ==> MinDemand(ps, c) <= d
    ensures MinDemand(ps, c) == 1.0 || exists k :: Asks(ps, c, k, MinDemand(ps, c))
    decreases |ps|
  {
    hide Demand;
    if ps != [] {
      var n := |ps| - 1;
      var m := MinDemand(ps, c);
      MinDemandIsMinimum(ps[..n], c);
      forall k, d | Asks(ps, c, k, d)
        ensures m <= d
      {
        assert k < n ==> Asks(ps[..n], c, k, d);
      }
      if m != 1.0 && m == MinDemand(ps[..n], c) {
        var k :| Asks(ps[..n], c, k, m);
        assert Asks(ps, c, k, m);
      } else if m != 1.0 {
        assert Asks(ps, c, n, m);
      }
    }
  }

  // No polygon asks for a negative factor.
  ghost predicate NonNegative(ps: seq<Shape>, c: Command) {
    forall k, d :: Asks(ps, c, k, d) ==> d >= 0.0
  }

  // Parameters that make every factor non-negative.
  lemma ValidParameters(ps: seq<Shape>, c: Command)
    requires forall k :: 0 <= k < |ps| ==> ps[k].slowdownRatio >= 0.0 && ps[k].timeBeforeCollision >= 0.0
    ensures NonNegative(ps, c)
  {
    forall k, d | Asks(ps, c, k, d)
      ensures d >= 0.0
    {
      if ps[k].actionType == Approach {
        QuotientNonNegative(ps[k].collisionTime, ps[k].timeBeforeCollision);
      }
    }
  }

  lemma QuotientNonNegative(a: real, b: real)
    requires a >= 0.0 && b > 0.0
    ensures a / b >= 0.0
  {
    var q := a / b;
    assert q * b == a;
    assert q < 0.0 ==> q * b < 0.0;
  }

  // A negative factor a polygon asks for stands unopposed: it is above -1, and whatever else
  // is asked for is larger in magnitude, the same, or its opposite and asked for later.
  ghost predicate Unopposed(ps: seq<Shape>, c: Command) {
    forall j, d :: Asks(ps, c, j, d) && d < 0.0 ==>
      d > -1.0 && forall k, e :: Asks(ps, c, k, e) ==> Abs(e) > -d || e == d || (e == -d && AskedBefore(ps, c, k, d))
  }

  ghost predicate AskedBefore(ps: seq<Shape>, c: Command, k: int, d: real) {
    exists i :: i < k && Asks(ps, c, i, d)
  }

  // The selected factor is the smallest one exactly if negative factors stand unopposed; in
  // particular if there are none.
  lemma FactorIsMinimum(ps: seq<Shape>, c: Command)
    ensures NonNegative(ps, c) ==> Unopposed(ps, c)
    ensures Factor(ps, c) == MinDemand(ps, c) <==> Unopposed(ps, c)
  {
    hide Asks, Factor, MinDemand;
    FactorIsFirstLeast(ps, c);
    MinDemandIsMinimum(ps, c);
    if Unopposed(ps, c) {
      UnopposedIsMinimum(ps, c, Factor(ps, c), MinDemand(ps, c));
    }
    if Factor(ps, c) == MinDemand(ps, c) {
      MinimumIsUnopposed(ps, c, Factor(ps, c));
    }
  }

  lemma UnopposedIsMinimum(ps: seq<Shape>, c: Command, r: real, m: real)
    requires FirstLeast(ps, c, r) && Unopposed(ps, c)
    requires m <= 1.0 && (m == 1.0 || exists k :: Asks(ps, c, k, m)) && forall k, d :: Asks(ps, c, k, d) ==> m <= d
    ensures r == m
  {
    hide Asks;
    if m < 0.0 {
      var j :| Asks(ps, c, j, m);
      assert Abs(r) <= Abs(m) < 1.0;
      var f :| AsksFirst(ps, c, f, r);
      NotAskedBefore(ps, c, f, r, m);
    } else if r != 1.0 {
      var f :| AsksFirst(ps, c, f, r);
    }
  }

  lemma NotAskedBefore(ps: seq<Shape>, c: Command, f: int, r: real, m: real)
    requires AsksFirst(ps, c, f, r) && Abs(m) == Abs(r)
    ensures !AskedBefore(ps, c, f, m)
  {
    hide Asks;
  }

  lemma MinimumIsUnopposed(ps: seq<Shape>, c: Command, r: real)
    requires FirstLeast(ps, c, r) && forall k, d :: Asks(ps, c, k, d) ==> r <= d
    ensures Unopposed(ps, c)
  {
    hide Asks;
    forall j, d | Asks(ps, c, j, d) && d < 0.0
      ensures d > -1.0 && forall k, e :: Asks(ps, c, k, e) ==> Abs(e) > -d || e == d || (e == -d && AskedBefore(ps, c, k, d))
    {
      var f :| AsksFirst(ps, c, f, r);
      assert r == d;
      forall k, e | Asks(ps, c, k, e) && e == -d
        ensures AskedBefore(ps, c, k, d)
      {
        SameOnce(ps, c, k, d, e);
        assert f < k;
      }
    }
  }

  // A polygon asks for one factor.
  lemma SameOnce(ps: seq<Shape>, c: Command, k: int, d: real, e: real)
    ensures Asks(ps, c, k, d) && Asks(ps, c, k, e) ==> d == e
  {
    hide Demand;
  }

  // ---------- Comparing scaled commands ----------

  lemma NormOfScale(v: Velocity, r: real)
    ensures Norm2(Scale(v, r)) == Sq(r) * Norm2(v)
  {
    SquaredSum(v.x, v.y, v.tw, r);
  }

  lemma SquaredSum(x: real, y: real, z: real, r: real)
    ensures (x * r) * (x * r) + (y * r) * (y * r) + (z * r) * (z * r) == (r * r) * (x * x + y * y + z * z)
  {
    assert (x * r) * (x * r) == (r * r) * (x * x);
    assert (y * r) * (y * r) == (r * r) * (y * y);
    assert (z * r) * (z * r) == (r * r) * (z * z);
  }

  lemma SqSign(a: real)
    ensures Sq(a) >= 0.0 && (Sq(a) == 0.0 <==> a == 0.0)
  {
    hide Sq;
    if a < 0.0 {
      NegativeSquare(a);
    } else {
      PositiveSquare(a);
    }
  }

  lemma PositiveSquare(a: real)
    requires a >= 0.0
    ensures Sq(a) >= 0.0 && (Sq(a) == 0.0 <==> a == 0.0)
  {
    if a > 0.0 {
      PositiveProduct(a);
      calc {
        Sq(a);
        a * a;
      >
        0.0;
      }
    }
  }

  lemma PositiveProduct(a: real)
    requires a > 0.0
    ensures a * a > 0.0
  {
    ProductSign(a, a);
  }

  lemma NegativeProduct(a: real)
    requires a < 0.0
    ensures a * a > 0.0
  {
    ProductSign(-a, -a);
    assert (-a) * (-a) == a * a;
  }

  lemma NegativeSquare(a: real)
    requires a < 0.0
    ensures Sq(a) > 0.0
  {
    NegativeProduct(a);
    calc {
      Sq(a);
      a * a;
    >
      0.0;
    }
  }

  lemma ZeroNorm(v: Velocity)
    ensures Norm2(v) >= 0.0 && (Norm2(v) == 0.0 <==> IsZero(v))
  {
    hide Sq;
    SqSign(v.x);
    SqSign(v.y);
    SqSign(v.tw);
  }

  lemma SqDifference(a: real, b: real)
    ensures Sq(b) - Sq(a) == (b - a) * (b + a)
  {
  }

  lemma SqOrder(a: real, b: real)
    requires a >= 0.0 && b >= 0.0
    ensures Sq(a) < Sq(b) <==> a < b
  {
    hide Sq;
    SqDifference(a, b);
    SqDifference(b, a);
    if a < b {
      var d, e := b - a, b + a;
      ProductSign(d, e);
      assert Sq(b) - Sq(a) == d * e;
    } else {
      var d, e := a - b, a + b;
      ProductSign(d, e);
      assert Sq(a) - Sq(b) == d * e;
    }
  }

  // Among multiples of a moving command, slower means the smaller magnitude of the factor.
  lemma ScaleOrder(v: Velocity, r: real, q: real)
    ensures Slower(Scale(v, r), Scale(v, q)) <==> !IsZero(v) && Abs(r) < Abs(q)
    ensures IsZero(v) ==> Scale(v, r) == Scale(v, q)
  {
    hide Norm2, Sq;
    ZeroNorm(v);
    NormOfScale(v, r);
    NormOfScale(v, q);
    SqAbs(r);
    SqAbs(q);
    SqOrder(Abs(r), Abs(q));
    if !IsZero(v) {
      ProductOrder(Sq(r), Sq(q), Norm2(v));
    }
  }

  lemma SqAbs(a: real)
    ensures Sq(Abs(a)) == Sq(a)
  {
  }

  // Different multiples of a moving command differ.
  lemma ScaleInjective(v: Velocity, r: real, q: real)
    requires !IsZero(v) && Scale(v, r) == Scale(v, q)
    ensures r == q
  {
    CancelFactor(v.x, r, q);
    CancelFactor(v.y, r, q);
    CancelFactor(v.tw, r, q);
  }

  lemma CancelFactor(x: real, r: real, q: real)
    ensures x != 0.0 && x * r == x * q ==> r == q
  {
    Difference(r, q, x);
    assert x * r == r * x && x * q == q * x;
    NoZeroProduct(r - q, x);
  }

  lemma NoZeroProduct(a: real, b: real)
    ensures a != 0.0 && b != 0.0 ==> a * b != 0.0
  {
    ProductSign(a, b);
    ProductSign(-a, b);
    ProductSign(a, -b);
    ProductSign(-a, -b);
    assert (-a) * b == -(a * b) && a * (-b) == -(a * b) && (-a) * (-b) == a * b;
  }

  // ---------- Arbitration ----------

  // Taking the scaled command if it is slower leaves the command scaled by the picked factor.
  lemma TakeSlower(v: Velocity, r: real, d: real)
    ensures Slower(Scale(v, d), Scale(v, r)) ==> Scale(v, Pick(r, Some(d))) == Scale(v, d)
    ensures !Slower(Scale(v, d), Scale(v, r)) ==> Scale(v, Pick(r, Some(d))) == Scale(v, r)
  {
    hide Scale, Slower;
    ScaleOrder(v, d, r);
  }

  // Nothing is slower than a stop, and a stop is not slower than a stop.
  lemma StopPicked(v: Velocity, r: real)
    ensures Scale(v, Pick(r, Some(0.0))) == Scale(v, 0.0)
  {
    if r == 0.0 {
      assert Pick(r, Some(0.0)) == 0.0;
    }
  }

  lemma ScaleByZero(v: Velocity)
    ensures Scale(v, 0.0) == ZERO
  {
  }

  lemma ScaleByOne(v: Velocity)
    ensures Scale(v, 1.0) == v
  {
  }

  // The action is the one polygon p asks for.
  ghost predicate ChosenBy(p: Shape, c: Command, a: Action) {
    && a.actionType == p.actionType && a.polygonName == p.name
    && Demand(p, c).Some? && a.reqVel == Scale(c.vel, Demand(p, c).value)
  }

  // processStopSlowdownLimit. r is the factor the action holds on entry.
  method ProcessStopSlowdownLimit(p: Shape, c: Command, action: Action, ghost r: real) returns (changed: bool, next: Action)
    requires p.enabled && (p.actionType == Stop || p.actionType == Slowdown || p.actionType == Limit)
    requires action.reqVel == Scale(c.vel, r)
    ensures next.reqVel == Scale(c.vel, Pick(r, Demand(p, c)))
    ensures !changed ==> next == action
    ensures changed ==> ChosenBy(p, c, next)
    ensures p.actionType == Stop ==> (changed <==> Demand(p, c).Some?)
  {
    hide Scale, Slower;
    if !p.shapeSet {
      return false, action;
    }
    if p.pointsInside >= p.minPoints {
      if p.actionType == Stop {
        ScaleByZero(c.vel);
        StopPicked(c.vel, r);
        return true, Action(Stop, Velocity(0.0, 0.0, 0.0), p.name);
      } else if p.actionType == Slowdown {
        var safeVel := Scale(c.vel, p.slowdownRatio);
        TakeSlower(c.vel, r, p.slowdownRatio);
        if Slower(safeVel, action.reqVel) {
          return true, Action(Slowdown, safeVel, p.name);
        }
      } else {
        var ratio := 1.0;
        if c.speed != 0.0 {
          ratio := Min(ratio, p.linearLimit / c.speed);
        }
        if c.vel.tw != 0.0 {
          ratio := Min(ratio, p.angularLimit / Abs(c.vel.tw));
        }
        ratio := Clamp01(ratio);
        assert Demand(p, c) == Some(ratio);
        var safeVel := Scale(c.vel, ratio);
        TakeSlower(c.vel, r, ratio);
        if Slower(safeVel, action.reqVel) {
          return true, Action(Limit, safeVel, p.name);
        }
      }
    }
    return false, action;
  }

  // processApproach.
  method ProcessApproach(p: Shape, c: Command, action: Action, ghost r: real) returns (changed: bool, next: Action)
    requires p.enabled && p.actionType == Approach
    requires action.reqVel == Scale(c.vel, r)
    ensures next.reqVel == Scale(c.vel, Pick(r, Demand(p, c)))
    ensures !changed ==> next == action
    ensures changed ==> ChosenBy(p, c, next)
  {
    hide Scale, Slower;
    if !p.shapeSet {
      return false, action;
    }
    if p.collisionTime >= 0.0 && p.timeBeforeCollision != 0.0 {
      var changeRatio := p.collisionTime / p.timeBeforeCollision;
      var safeVel := Scale(c.vel, changeRatio);
      TakeSlower(c.vel, r, changeRatio);
      if Slower(safeVel, action.reqVel) {
        return true, Action(Approach, safeVel, p.name);
      }
    }
    return false, action;
  }

  // A data source in one cycle.
  datatype Source = Source(enabled: bool, gotData: bool, timeout: real)

  predicate Invalid(s: Source) {
    s.enabled && !s.gotData && s.timeout != 0.0
  }

  ghost predicate InvalidSource(sources: seq<Source>) {
    exists k :: 0 <= k < |sources| && Invalid(sources[k])
  }

  method CheckSources(sources: seq<Source>) returns (invalid: bool)
    ensures invalid <==> InvalidSource(sources)
  {
    for k := 0 to |sources|
      invariant forall j :: 0 <= j < k ==> !Invalid(sources[j])
    {
      if sources[k].enabled {
        if !sources[k].gotData && sources[k].timeout != 0.0 {
          return true;
        }
      }
    }
    return false;
  }

  // What the arbitration promises.
  ghost function Selected(c: Command, sources: seq<Source>, shapes: seq<Shape>, enabled: bool): Velocity {
    if InvalidSource(sources) then ZERO
    else if !enabled then c.vel
    else Scale(c.vel, Factor(shapes, c))
  }

  // The polygon loop of process, from an action that does not stop.
  method ConsiderPolygons(c: Command, shapes: seq<Shape>, start: Action) returns (action: Action)
    requires start.actionType != Stop && start.reqVel == c.vel
    ensures action.reqVel == Scale(c.vel, Factor(shapes, c))
    ensures action == start || exists k :: 0 <= k < |shapes| && ChosenBy(shapes[k], c, action)
    ensures action == start || action.actionType != DoNothing
  {
    hide Scale, Demand, Slower, ChosenBy;
    action := start;
    ScaleByOne(c.vel);
    ghost var stopper := 0;
    for k := 0 to |shapes|
      invariant action.reqVel == Scale(c.vel, Factor(shapes[..k], c))
      invariant action.actionType == Stop ==> stopper < k && Demand(shapes[stopper], c) == Some(0.0)
      invariant action == start || exists j :: 0 <= j < |shapes| && ChosenBy(shapes[j], c, action)
      invariant action == start || action.actionType != DoNothing
    {
      ghost var r := Factor(shapes[..k], c);
      assert shapes[..k + 1][..k] == shapes[..k];
      if !shapes[k].enabled {
        DisabledDemandsNothing(shapes[k], c);
        continue;
      }
      if action.actionType == Stop {
        StopDecides(shapes, c, k, stopper);
        return;
      }
      var at := shapes[k].actionType;
      if at == Stop || at == Slowdown || at == Limit {
        var changed;
        changed, action := ProcessStopSlowdownLimit(shapes[k], c, action, r);
        if changed {
          ChosenType(shapes[k], c, action);
        }
        if at == Stop && changed {
          stopper := k;
          StopDemandsZero(shapes[k], c);
        }
      } else if at == Approach {
        var changed;
        changed, action := ProcessApproach(shapes[k], c, action, r);
        if changed {
          ChosenType(shapes[k], c, action);
        }
      } else {
        DisabledDemandsNothing(shapes[k], c);
      }
    }
    assert shapes[..|shapes|] == shapes;
  }

  lemma ChosenType(p: Shape, c: Command, a: Action)
    requires ChosenBy(p, c, a)
    ensures a.actionType == p.actionType && Demand(p, c).Some?
  {
    hide Demand;
  }

  lemma DisabledDemandsNothing(p: Shape, c: Command)
    requires !p.enabled || p.actionType == DoNothing
    ensures Demand(p, c) == None
  {
  }

  lemma StopDemandsZero(p: Shape, c: Command)
    requires p.actionType == Stop && Demand(p, c).Some?
    ensures Demand(p, c) == Some(0.0)
  {
  }

  // Once a polygon demands 0 the rest cannot matter.
  lemma StopDecides(shapes: seq<Shape>, c: Command, k: nat, stopper: nat)
    requires stopper < k <= |shapes| && Demand(shapes[stopper], c) == Some(0.0)
    ensures Factor(shapes[..k], c) == Factor(shapes, c) == 0.0
  {
    hide Demand, Factor, AsksFirst;
    FactorIsFirstLeast(shapes[..k], c);
    FactorIsFirstLeast(shapes, c);
    assert Asks(shapes[..k], c, stopper, 0.0) && Asks(shapes, c, stopper, 0.0);
  }

  // The selection part of process.
  method Select(c: Command, sources: seq<Source>, shapes: seq<Shape>, enabled: bool) returns (action: Action)
    ensures action.reqVel == Selected(c, sources, shapes, enabled)
    ensures (exists j :: 0 <= j < |sources| && sources[j].enabled && !sources[j].gotData && sources[j].timeout != 0.0) ==>
      action == Action(Stop, ZERO, "invalid source")
    ensures action.actionType == DoNothing ==> action == Action(DoNothing, c.vel, "")
    ensures action.polygonName != "" && action.polygonName != "invalid source" ==>
      enabled && exists k :: 0 <= k < |shapes| && ChosenBy(shapes[k], c, action)
  {
    hide Scale, Factor, ChosenBy;
    action := Action(DoNothing, c.vel, "");
    assert forall j :: 0 <= j < |sources| && sources[j].enabled && !sources[j].gotData && sources[j].timeout != 0.0 ==> Invalid(sources[j]);
    var invalid := CheckSources(sources);
    if invalid {
      // every enabled polygon then finds STOP and breaks
      action := Action(Stop, Velocity(0.0, 0.0, 0.0), "invalid source");
      return;
    }
    if enabled {
      action := ConsiderPolygons(c, shapes, action);
    }
  }

  // The selected velocity of a moving robot is the command times the smallest factor exactly
  // if negative factors stand unopposed.
  lemma SelectedExact(c: Command, sources: seq<Source>, shapes: seq<Shape>)
    requires !IsZero(c.vel) && !InvalidSource(sources)
    ensures Selected(c, sources, shapes, true) == Scale(c.vel, MinDemand(shapes, c)) <==> Unopposed(shapes, c)
  {
    hide Scale, Factor, MinDemand, Unopposed, InvalidSource;
    FactorIsMinimum(shapes, c);
    if Selected(c, sources, shapes, true) == Scale(c.vel, MinDemand(shapes, c)) {
      ScaleInjective(c.vel, Factor(shapes, c), MinDemand(shapes, c));
    }
  }

  // With non-negative ratios and times the selected velocity is the command times the
  // smallest factor, moving or not.
  lemma SelectedIsMinimum(c: Command, sources: seq<Source>, shapes: seq<Shape>)
    requires !InvalidSource(sources)
    requires forall k :: 0 <= k < |shapes| ==> shapes[k].slowdownRatio >= 0.0 && shapes[k].timeBeforeCollision >= 0.0
    ensures Selected(c, sources, shapes, true) == Scale(c.vel, MinDemand(shapes, c))
  {
    hide Scale, Factor, MinDemand, Unopposed, NonNegative, InvalidSource;
    ValidParameters(shapes, c);
    FactorIsMinimum(shapes, c);
  }

  // A triggered SLOWDOWN polygon with the given ratio.
  function Slowing(ratio: real): Shape {
    Shape("slow", true, true, Slowdown, 1, 1, ratio, 0.0, 0.0, -1.0, 1.0)
  }

  // Half speed forward against half speed backward: the first one listed wins, so the selected
  // velocity is not the command times the minimum -0.5, and depends on the order.
  lemma OpposedInstance(c: Command, sources: seq<Source>)
    requires !IsZero(c.vel) && !InvalidSource(sources)
    ensures var shapes := [Slowing(0.5), Slowing(-0.5)];
      && Opposed(shapes, c) && !Unopposed(shapes, c)
      && Selected(c, sources, shapes, true) == Scale(c.vel, 0.5) != Scale(c.vel, MinDemand(shapes, c))
  {
    hide Scale, InvalidSource;
    var shapes := [Slowing(0.5), Slowing(-0.5)];
    assert Asks(shapes, c, 0, 0.5) && Asks(shapes, c, 1, -0.5);
    assert Least(shapes, c, 0.5) && Asked(shapes, c, 0.5) && Asked(shapes, c, -0.5);
    assert FirstLeast(shapes, c, 0.5) by { assert AsksFirst(shapes, c, 0, 0.5); }
    FactorIsFirstLeast(shapes, c);
    FirstLeastUnique(shapes, c, 0.5, Factor(shapes, c));
    MinDemandIsMinimum(shapes, c);
    if Scale(c.vel, 0.5) == Scale(c.vel, MinDemand(shapes, c)) {
      ScaleInjective(c.vel, 0.5, MinDemand(shapes, c));
    }
    SelectedExact(c, sources, shapes);
  }

  // ---------- What triggers a polygon ----------

  lemma AskedFactor(c: Command, shapes: seq<Shape>, k: nat, d: real)
    requires Asks(shapes, c, k, d)
    ensures Abs(Factor(shapes, c)) <= Abs(d)
  {
    hide Demand, Factor, AsksFirst;
    FactorIsFirstLeast(shapes, c);
  }

  // An enabled STOP polygon that has its shape and enough points inside stops the robot.
  lemma StopStops(c: Command, sources: seq<Source>, shapes: seq<Shape>, k: nat)
    requires k < |shapes| && shapes[k].enabled && shapes[k].shapeSet && shapes[k].actionType == Stop
    requires shapes[k].pointsInside >= shapes[k].minPoints
    ensures Selected(c, sources, shapes, true) == ZERO
  {
    hide Factor, InvalidSource;
    AskedFactor(c, shapes, k, 0.0);
    ScaleByZero(c.vel);
  }

  // Nothing slower than what an occupied SLOWDOWN or a colliding APPROACH polygon asks for is
  // passed over: the selected velocity is not faster.
  lemma TriggeredSlows(c: Command, sources: seq<Source>, shapes: seq<Shape>, k: nat)
    requires k < |shapes| && shapes[k].enabled && shapes[k].shapeSet && !InvalidSource(sources)
    ensures shapes[k].actionType == Slowdown && shapes[k].pointsInside >= shapes[k].minPoints ==>
      !Slower(Scale(c.vel, shapes[k].slowdownRatio), Selected(c, sources, shapes, true))
    ensures shapes[k].actionType == Approach && shapes[k].collisionTime >= 0.0 && shapes[k].timeBeforeCollision != 0.0 ==>
      !Slower(Scale(c.vel, shapes[k].collisionTime / shapes[k].timeBeforeCollision), Selected(c, sources, shapes, true))
  {
    hide Factor, Slower, Scale, InvalidSource;
    var p := shapes[k];
    if Demand(p, c).Some? {
      AskedFactor(c, shapes, k, Demand(p, c).value);
      ScaleOrder(c.vel, Demand(p, c).value, Factor(shapes, c));
    }
  }

  // A polygon has nothing to say: it is off, has no shape, or neither enough points inside nor
  // a collision ahead.
  predicate Idle(p: Shape) {
    || !p.enabled || !p.shapeSet || p.actionType == DoNothing
    || (p.actionType == Approach && p.collisionTime < 0.0)
    || (p.actionType != Approach && p.pointsInside < p.minPoints)
  }

  // With sound sources and idle polygons the command passes unchanged, as it does when the
  // monitor is off.
  lemma NothingTriggered(c: Command, sources: seq<Source>, shapes: seq<Shape>)
    requires forall j :: 0 <= j < |sources| ==> !sources[j].enabled || sources[j].gotData || sources[j].timeout == 0.0
    ensures (forall k :: 0 <= k < |shapes| ==> Idle(shapes[k])) ==> Selected(c, sources, shapes, true) == c.vel
    ensures Selected(c, sources, shapes, false) == c.vel
  {
    hide Factor;
    if forall k :: 0 <= k < |shapes| ==> Idle(shapes[k]) {
      IdleFactor(c, shapes);
      ScaleByOne(c.vel);
    }
  }

  lemma IdleFactor(c: Command, shapes: seq<Shape>)
    requires forall k :: 0 <= k < |shapes| ==> Idle(shapes[k])
    ensures Factor(shapes, c) == 1.0
  {
    hide Factor;
    FactorIsFirstLeast(shapes, c);
    forall k, d
      ensures !Asks(shapes, c, k, d)
    {
      assert 0 <= k < |shapes| ==> Idle(shapes[k]);
    }
  }

  // An enabled source without data, unless its timeout is zero, stops the robot.
  lemma InvalidSourceStops(c: Command, sources: seq<Source>, shapes: seq<Shape>, enabled: bool, j: nat)
    requires j < |sources| && sources[j].enabled && !sources[j].gotData && sources[j].timeout != 0.0
    ensures Selected(c, sources, shapes, enabled) == ZERO
  {
    assert Invalid(sources[j]);
  }

  // One polygon alone, by its fields.
  lemma OnePolygon(c: Command, sources: seq<Source>, p: Shape)
    requires p.enabled && p.shapeSet && !InvalidSource(sources)
    ensures p.actionType == Slowdown && p.pointsInside >= p.minPoints && -1.0 < p.slowdownRatio < 1.0 ==>
      Selected(c, sources, [p], true) == Scale(c.vel, p.slowdownRatio)
    ensures p.actionType == Slowdown && p.pointsInside >= p.minPoints && !(-1.0 < p.slowdownRatio < 1.0) ==>
      Selected(c, sources, [p], true) == c.vel
    ensures p.actionType == Limit && p.pointsInside >= p.minPoints ==>
      Selected(c, sources, [p], true) == Scale(c.vel, LimitRatio(p, c))
    ensures p.actionType == Approach && 0.0 <= p.collisionTime < p.timeBeforeCollision ==>
      Selected(c, sources, [p], true) == Scale(c.vel, p.collisionTime / p.timeBeforeCollision)
  {
    hide Scale, InvalidSource, LimitRatio;
    ScaleByOne(c.vel);
    LimitRatioNonNegative(p, c);
    assert [p][..0] == [];
    assert Factor([p], c) == Pick(1.0, Demand(p, c));
    if p.actionType == Approach && 0.0 <= p.collisionTime < p.timeBeforeCollision {
      ProperFraction(p.collisionTime, p.timeBeforeCollision);
    }
  }

  lemma ProperFraction(a: real, b: real)
    requires 0.0 <= a < b
    ensures 0.0 <= a / b < 1.0
  {
    var q := a / b;
    assert q * b == a;
    ProductOrder(q, 1.0, b);
    ProductOrder(q, 0.0, b);
  }

  // ---------- Order of the polygons ----------

  // Two polygons ask for opposite factors, and no magnitude asked for is smaller.
  ghost predicate Opposed(shapes: seq<Shape>, c: Command) {
    exists d :: Least(shapes, c, d) && Asked(shapes, c, d) && Asked(shapes, c, -d)
  }

  ghost predicate Least(shapes: seq<Shape>, c: Command, d: real) {
    0.0 < Abs(d) < 1.0 && NoneBelow(shapes, c, d)
  }

  // However the polygons are ordered, the selected speed is the same; and the velocity is the
  // same unless polygons are opposed.
  lemma OrderDoesNotMatter(c: Command, sources: seq<Source>, shapes: seq<Shape>, reordered: seq<Shape>, enabled: bool)
    requires multiset(shapes) == multiset(reordered)
    ensures Norm2(Selected(c, sources, shapes, enabled)) == Norm2(Selected(c, sources, reordered, enabled))
    ensures !Opposed(shapes, c) ==> Selected(c, sources, shapes, enabled) == Selected(c, sources, reordered, enabled)
  {
    hide Scale, Factor, Norm2, InvalidSource, Opposed, Sq;
    SameMagnitude(c, shapes, reordered);
    SameMagnitude(c, reordered, shapes);
    var r, q := Factor(shapes, c), Factor(reordered, c);
    NormOfScale(c.vel, r);
    NormOfScale(c.vel, q);
    SqAbs(r);
    SqAbs(q);
    if !Opposed(shapes, c) {
      SameSign(c, shapes, reordered);
    }
  }

  lemma AskedInBoth(c: Command, s: seq<Shape>, t: seq<Shape>, i: int, d: real) returns (j: int)
    requires multiset(s) == multiset(t) && Asks(s, c, i, d)
    ensures Asks(t, c, j, d)
  {
    hide Demand;
    j := MemberAt(s, t, i);
  }

  lemma SameMagnitude(c: Command, s: seq<Shape>, t: seq<Shape>)
    requires multiset(s) == multiset(t)
    ensures Abs(Factor(s, c)) <= Abs(Factor(t, c))
  {
    hide Factor, Asks;
    FactorIsFirstLeast(s, c);
    FactorIsFirstLeast(t, c);
    if Factor(t, c) != 1.0 {
      var k :| AsksFirst(t, c, k, Factor(t, c));
      var j := AskedInBoth(c, t, s, k, Factor(t, c));
    }
  }

  lemma SameSign(c: Command, s: seq<Shape>, t: seq<Shape>)
    requires multiset(s) == multiset(t) && !Opposed(s, c)
    ensures Factor(s, c) == Factor(t, c)
  {
    hide Factor, Asks;
    SameMagnitude(c, s, t);
    SameMagnitude(c, t, s);
    FactorIsFirstLeast(s, c);
    FactorIsFirstLeast(t, c);
    if Factor(s, c) != Factor(t, c) {
      OppositeFactors(c, s, t, Factor(s, c), Factor(t, c));
    }
  }

  lemma OppositeFactors(c: Command, s: seq<Shape>, t: seq<Shape>, r: real, q: real)
    requires multiset(s) == multiset(t) && FirstLeast(s, c, r) && FirstLeast(t, c, q) && Abs(r) == Abs(q) && r != q
    ensures Opposed(s, c)
  {
    hide Asks;
    assert r != 1.0 && q != 1.0;
    var j :| AsksFirst(s, c, j, r);
    var k :| AsksFirst(t, c, k, q);
    var i := AskedInBoth(c, t, s, k, q);
    assert q == -r && Least(s, c, r) && Asked(s, c, r) && Asked(s, c, -r);
  }

  // Where polygons are opposed, two orders select opposite velocities for a moving robot.
  lemma OpposedOrders(c: Command, sources: seq<Source>, shapes: seq<Shape>) returns (a: seq<Shape>, b: seq<Shape>)
    requires Opposed(shapes, c) && !IsZero(c.vel) && !InvalidSource(sources)
    ensures multiset(a) == multiset(shapes) == multiset(b)
    ensures Selected(c, sources, a, true) != Selected(c, sources, b, true)
  {
    hide Asks, Factor, Scale, InvalidSource;
    var d :| Least(shapes, c, d) && Asked(shapes, c, d) && Asked(shapes, c, -d);
    var j :| Asks(shapes, c, j, d);
    var k :| Asks(shapes, c, k, -d);
    a := ToFront(c, shapes, j, d);
    b := ToFront(c, shapes, k, -d);
    if Selected(c, sources, a, true) == Selected(c, sources, b, true) {
      ScaleInjective(c.vel, d, -d);
    }
  }

  // The polygon that asks for a least magnitude, put first, decides.
  lemma ToFront(c: Command, shapes: seq<Shape>, j: int, d: real) returns (front: seq<Shape>)
    requires Asks(shapes, c, j, d) && Least(shapes, c, d)
    ensures multiset(front) == multiset(shapes) && Factor(front, c) == d
  {
    hide Factor, Demand;
    front := [shapes[j]] + shapes[..j] + shapes[j + 1..];
    assert shapes == shapes[..j] + [shapes[j]] + shapes[j + 1..];
    assert Asks(front, c, 0, d);
    forall k, e | Asks(front, c, k, e)
      ensures Abs(d) <= Abs(e)
    {
      var i := AskedInBoth(c, front, shapes, k, e);
    }
    assert AsksFirst(front, c, 0, d);
    FactorIsFirstLeast(front, c);
    FirstLeastUnique(front, c, d, Factor(front, c));
  }

  // ---------- Limits ----------

  lemma QuotientBound(r: real, limit: real, speed: real)
    requires speed > 0.0 && r <= limit / speed
    ensures r * speed <= limit
  {
    var q := limit / speed;
    assert q * speed == limit;
    ProductSign(q - r, speed);
    assert (q - r) * speed == q * speed - r * speed;
  }

  lemma LimitRatioBounds(p: Shape, c: Command)
    requires p.linearLimit >= 0.0 && p.angularLimit >= 0.0 && c.speed >= 0.0
    ensures c.speed != 0.0 ==> LimitRatio(p, c) <= p.linearLimit / c.speed
    ensures c.vel.tw != 0.0 ==> LimitRatio(p, c) <= p.angularLimit / Abs(c.vel.tw)
  {
    if c.speed != 0.0 {
      QuotientNonNegative(p.linearLimit, c.speed);
    }
    if c.vel.tw != 0.0 {
      QuotientNonNegative(p.angularLimit, Abs(c.vel.tw));
    }
  }

  // v keeps within the limits of p: its linear speed is the non-negative root of
  // x * x + y * y, its turn rate |tw|.
  ghost predicate WithinLimits(p: Shape, v: Velocity) {
    && (exists speed :: speed >= 0.0 && Sq(speed) == Sq(v.x) + Sq(v.y) && speed <= p.linearLimit)
    && Abs(v.tw) <= p.angularLimit
  }

  lemma FactorWithinLimits(p: Shape, c: Command, r: real)
    requires ValidCommand(c) && p.linearLimit >= 0.0 && p.angularLimit >= 0.0
    requires Abs(r) <= LimitRatio(p, c)
    ensures WithinLimits(p, Scale(c.vel, r))
  {
    hide LimitRatio, Sq;
    LimitRatioBounds(p, c);
    SpeedWithin(c, r, p.linearLimit);
    TurnWithin(c.vel.tw, r, p.angularLimit);
    ScaledSpeed(c, r);
    var speed := Abs(r) * c.speed;
    assert Sq(speed) == Sq(Scale(c.vel, r).x) + Sq(Scale(c.vel, r).y);
  }

  lemma SpeedWithin(c: Command, r: real, limit: real)
    requires ValidCommand(c) && limit >= 0.0 && (c.speed != 0.0 ==> Abs(r) <= limit / c.speed)
    ensures 0.0 <= Abs(r) * c.speed <= limit
  {
    hide Sq;
    if c.speed != 0.0 {
      QuotientBound(Abs(r), limit, c.speed);
    }
    ProductSign(Abs(r), c.speed);
  }

  lemma SqProductAbs(r: real, s: real)
    ensures Sq(Abs(r) * s) == Sq(r * s)
  {
    assert Abs(r) * s == r * s || Abs(r) * s == -(r * s);
  }

  lemma TurnWithin(tw: real, r: real, limit: real)
    requires limit >= 0.0 && (tw != 0.0 ==> Abs(r) <= limit / Abs(tw))
    ensures Abs(tw * r) <= limit
  {
    if tw != 0.0 {
      QuotientBound(Abs(r), limit, Abs(tw));
    }
    ScaledTurn(tw, r);
  }

  // LimitRatio is the largest factor up to 1 that keeps within the limits.
  lemma LimitRatioLargest(p: Shape, c: Command, r: real)
    requires ValidCommand(c) && p.linearLimit >= 0.0 && p.angularLimit >= 0.0 && 0.0 <= r <= 1.0
    ensures r <= LimitRatio(p, c) <==> WithinLimits(p, Scale(c.vel, r))
  {
    hide WithinLimits, Scale;
    if r <= LimitRatio(p, c) {
      FactorWithinLimits(p, c, r);
    }
    if WithinLimits(p, Scale(c.vel, r)) {
      WithinMeans(p, c, r);
      if c.speed != 0.0 {
        BoundQuotient(r, p.linearLimit, c.speed);
      }
      if c.vel.tw != 0.0 {
        BoundQuotient(r, p.angularLimit, Abs(c.vel.tw));
      }
    }
  }

  lemma WithinMeans(p: Shape, c: Command, r: real)
    requires ValidCommand(c) && r >= 0.0 && WithinLimits(p, Scale(c.vel, r))
    ensures r * c.speed <= p.linearLimit && r * Abs(c.vel.tw) <= p.angularLimit
  {
    hide Sq;
    var speed :| speed >= 0.0 && Sq(speed) == Sq(Scale(c.vel, r).x) + Sq(Scale(c.vel, r).y) && speed <= p.linearLimit;
    ScaledSpeed(c, r);
    ProductSign(Abs(r), c.speed);
    SameRoot(speed, Abs(r) * c.speed);
    ScaledTurn(c.vel.tw, r);
  }

  lemma SameRoot(a: real, b: real)
    requires a >= 0.0 && b >= 0.0 && Sq(a) == Sq(b)
    ensures a == b
  {
    hide Sq;
    SqOrder(a, b);
    SqOrder(b, a);
  }

  lemma BoundQuotient(r: real, limit: real, speed: real)
    requires speed > 0.0 && r * speed <= limit
    ensures r <= limit / speed
  {
    var q := limit / speed;
    assert q * speed == limit;
    ProductOrder(q, r, speed);
  }

  // For every triggered LIMIT polygon the selected velocity keeps within its limits, whichever
  // polygon won, unless a limit is negative, which nothing keeps within.
  lemma LimitsHold(c: Command, sources: seq<Source>, shapes: seq<Shape>, k: nat)
    requires ValidCommand(c) && k < |shapes|
    requires shapes[k].actionType == Limit && Demand(shapes[k], c).Some?
    ensures WithinLimits(shapes[k], Selected(c, sources, shapes, true)) <==>
      shapes[k].linearLimit >= 0.0 && shapes[k].angularLimit >= 0.0
  {
    hide Factor, LimitRatio, Scale, FirstLeast, InvalidSource;
    var p := shapes[k];
    if p.linearLimit >= 0.0 && p.angularLimit >= 0.0 {
      LimitFactor(c, shapes, k);
      LimitRatioNonNegative(p, c);
      if InvalidSource(sources) {
        FactorWithinLimits(p, c, 0.0);
        ScaleByZero(c.vel);
      } else {
        FactorWithinLimits(p, c, Factor(shapes, c));
      }
    }
  }

  lemma LimitFactor(c: Command, shapes: seq<Shape>, k: nat)
    requires k < |shapes| && shapes[k].actionType == Limit && Demand(shapes[k], c).Some?
    ensures Abs(Factor(shapes, c)) <= LimitRatio(shapes[k], c)
  {
    hide Factor, LimitRatio, AsksFirst;
    FactorIsFirstLeast(shapes, c);
    LimitRatioNonNegative(shapes[k], c);
    assert Asks(shapes, c, k, LimitRatio(shapes[k], c));
  }

  lemma LimitRatioNonNegative(p: Shape, c: Command)
    ensures 0.0 <= LimitRatio(p, c) <= 1.0
  {
  }

  lemma ScaledTurn(tw: real, r: real)
    ensures Abs(tw * r) == Abs(r) * Abs(tw)
  {
    ProductSign(tw, r);
    ProductSign(-tw, r);
    ProductSign(tw, -r);
    ProductSign(-tw, -r);
    assert (-tw) * r == -(tw * r) && tw * (-r) == -(tw * r) && (-tw) * (-r) == tw * r;
  }

  lemma ScaledSpeed(c: Command, r: real)
    requires ValidCommand(c)
    ensures Sq(Scale(c.vel, r).x) + Sq(Scale(c.vel, r).y) == Sq(Abs(r) * c.speed)
  {
    hide Abs;
    SqProductAbs(r, c.speed);
    SqOfProduct(c.vel.x, r);
    SqOfProduct(c.vel.y, r);
    SqOfProduct(r, c.speed);
    Difference(Sq(c.speed), Sq(c.vel.x), Sq(r));
  }

  lemma SqOfProduct(a: real, b: real)
    ensures Sq(a * b) == Sq(a) * Sq(b)
  {
    assert (a * b) * (a * b) == (a * a) * (b * b);
  }

  // APPROACH keeps a constant time before the collision: at the demanded velocity the robot
  // needs timeBeforeCollision for the way it would have covered in collisionTime.
  lemma ApproachKeepsInterval(p: Shape, c: Command)
    requires p.actionType == Approach && Demand(p, c).Some?
    ensures Scale(Scale(c.vel, Demand(p, c).value), p.timeBeforeCollision) == Scale(c.vel, p.collisionTime)
  {
    var q, t := p.collisionTime / p.timeBeforeCollision, p.timeBeforeCollision;
    assert q * t == p.collisionTime;
    Reassociate(c.vel.x, q, t);
    Reassociate(c.vel.y, q, t);
    Reassociate(c.vel.tw, q, t);
  }

  lemma Reassociate(a: real, q: real, t: real)
    ensures (a * q) * t == a * (q * t)
  {
  }

  // ---------- Points and collision time ----------

  datatype Point = Point(x: real, y: real)

  // getPointsInside on a list; inside stands for isPointInsidePolygon.
  function CountInside(points: seq<Point>, inside: Point -> bool): nat {
    if points == [] then 0
    else CountInside(points[..|points| - 1], inside) + (if inside(points[|points| - 1]) then 1 else 0)
  }

  lemma {:induction false} CountAppend(a: seq<Point>, b: seq<Point>, inside: Point -> bool)
    ensures CountInside(a + b, inside) == CountInside(a, inside) + CountInside(b, inside)
    decreases |b|
  {
    if b == [] {
      assert a + b == a;
    } else {
      assert (a + b)[..|a + b| - 1] == a + b[..|b| - 1];
      CountAppend(a, b[..|b| - 1], inside);
    }
  }

  ghost function Positions(points: seq<Point>, inside: Point -> bool): set<int> {
    set i | 0 <= i < |points| && inside(points[i])
  }

  lemma PositionsNext(points: seq<Point>, inside: Point -> bool)
    requires points != []
    ensures var n := |points| - 1;
      && n !in Positions(points[..n], inside)
      && Positions(points, inside) == Positions(points[..n], inside) + (if inside(points[n]) then {n} else {})
  {
  }

  // The number of points inside, as the size of a set of positions.
  lemma {:induction false} CountIsSize(points: seq<Point>, inside: Point -> bool)
    ensures CountInside(points, inside) == |set i | 0 <= i < |points| && inside(points[i])|
  {
    CountPositions(points, inside);
  }

  lemma {:induction false} CountPositions(points: seq<Point>, inside: Point -> bool)
    ensures CountInside(points, inside) == |Positions(points, inside)|
    decreases |points|
  {
    if points == [] {
      assert Positions(points, inside) == {};
    } else {
      hide Positions;
      PositionsNext(points, inside);
      CountPositions(points[..|points| - 1], inside);
    }
  }

  // All points of the named sources that delivered data.
  function Gathered(names: seq<string>, data: map<string, seq<Point>>): seq<Point> {
    if names == [] then []
    else
      var rest := Gathered(names[..|names| - 1], data);
      if names[|names| - 1] in data then rest + data[names[|names| - 1]] else rest
  }

  // A point is gathered iff a named source delivered it.
  lemma {:induction false} GatheredPoints(names: seq<string>, data: map<string, seq<Point>>, p: Point)
    ensures p in Gathered(names, data) <==> exists k :: 0 <= k < |names| && names[k] in data && p in data[names[k]]
    decreases |names|
  {
    if names != [] {
      var n := |names| - 1;
      GatheredPoints(names[..n], data, p);
      if p in Gathered(names[..n], data) {
        var k :| 0 <= k < n && names[..n][k] in data && p in data[names[..n][k]];
        assert names[k] in data && p in data[names[k]];
      }
      if exists k :: 0 <= k < |names| && names[k] in data && p in data[names[k]] {
        var k :| 0 <= k < |names| && names[k] in data && p in data[names[k]];
        assert k < n ==> names[..n][k] in data && p in data[names[..n][k]];
      }
    }
  }

  method CountPoints(points: seq<Point>, inside: Point -> bool) returns (num: nat)
    ensures num == CountInside(points, inside)
  {
    num := 0;
    for i := 0 to |points|
      invariant num == CountInside(points[..i], inside)
    {
      assert points[..i + 1][..i] == points[..i];
      if inside(points[i]) {
        num := num + 1;
      }
    }
    assert points[..|points|] == points;
  }

  // getPointsInside on the source map counts the points that getCollisionTime gathers.
  method GetPointsInside(names: seq<string>, data: map<string, seq<Point>>, inside: Point -> bool) returns (num: nat)
    ensures num == CountInside(Gathered(names, data), inside)
    ensures num == |set i | 0 <= i < |Gathered(names, data)| && inside(Gathered(names, data)[i])|
  {
    CountIsSize(Gathered(names, data), inside);
    num := 0;
    for i := 0 to |names|
      invariant num == CountInside(Gathered(names[..i], data), inside)
    {
      assert names[..i + 1][..i] == names[..i];
      if names[i] in data {
        var n := CountPoints(data[names[i]], inside);
        CountAppend(Gathered(names[..i], data), data[names[i]], inside);
        num := num + n;
      }
    }
    assert names[..|names|] == names;
  }

  datatype Pose = Pose(x: real, y: real, theta: real)

  // The simulated motion: project stands for projectState over one time step, transform for
  // transformPoints into the frame of a pose.
  datatype Motion = Motion(project: (Pose, Velocity) -> (Pose, Velocity), transform: (Pose, Point) -> Point)

  // Pose and velocity after k projections.
  function Projected(m: Motion, v: Velocity, k: nat): (Pose, Velocity) {
    if k == 0 then (Pose(0.0, 0.0, 0.0), v)
    else
      var (pose, vel) := Projected(m, v, k - 1);
      m.project(pose, vel)
  }

  // The pose after k steps of (dx, dy, dtheta).
  function Steps(k: nat, dx: real, dy: real, dtheta: real): Pose {
    Pose((k as real) * dx, (k as real) * dy, (k as real) * dtheta)
  }

  lemma StepsNext(k: nat, dx: real, dy: real, dtheta: real)
    ensures var p, q := Steps(k, dx, dy, dtheta), Steps(k + 1, dx, dy, dtheta);
      q == Pose(p.x + dx, p.y + dy, p.theta + dtheta)
  {
    NextInstant(k, dx);
    NextInstant(k, dy);
    NextInstant(k, dtheta);
  }

  // Under a constant velocity the pose moves on by the same amount with every projection.
  lemma {:induction false} StraightMotion(m: Motion, v: Velocity, dx: real, dy: real, dtheta: real, k: nat)
    requires forall pose :: m.project(pose, v) == (Pose(pose.x + dx, pose.y + dy, pose.theta + dtheta), v)
    ensures Projected(m, v, k) == (Steps(k, dx, dy, dtheta), v)
    decreases k
  {
    if k > 0 {
      StraightMotion(m, v, dx, dy, dtheta, k - 1);
      hide Steps;
      StepsNext(k - 1, dx, dy, dtheta);
    }
  }

  function Transformed(m: Motion, pose: Pose, points: seq<Point>): seq<Point> {
    seq(|points|, i requires 0 <= i < |points| => m.transform(pose, points[i]))
  }

  // At instant k the robot has moved k + 1 times; enough points are inside the polygon then.
  predicate Hit(m: Motion, v: Velocity, points: seq<Point>, inside: Point -> bool, minPoints: int, k: nat) {
    CountInside(Transformed(m, Projected(m, v, k + 1).0, points), inside) >= minPoints
  }

  ghost predicate FirstHit(m: Motion, v: Velocity, points: seq<Point>, inside: Point -> bool, minPoints: int, k: nat) {
    Hit(m, v, points, inside, minPoints, k) && forall j: nat :: j < k ==> !Hit(m, v, points, inside, minPoints, j)
  }

  // Instant k looks at the points from where the robot is after k + 1 steps.
  lemma HitAfterSteps(m: Motion, v: Velocity, dx: real, dy: real, dtheta: real, points: seq<Point>, inside: Point -> bool,
                      minPoints: int, k: nat)
    requires forall pose :: m.project(pose, v) == (Pose(pose.x + dx, pose.y + dy, pose.theta + dtheta), v)
    ensures Hit(m, v, points, inside, minPoints, k) <==>
      |set i | 0 <= i < |points| && inside(m.transform(Steps(k + 1, dx, dy, dtheta), points[i]))| >= minPoints
  {
    hide Steps;
    StraightMotion(m, v, dx, dy, dtheta, k + 1);
    var moved := Transformed(m, Steps(k + 1, dx, dy, dtheta), points);
    CountIsSize(moved, inside);
    assert (set i | 0 <= i < |moved| && inside(moved[i])) ==
      set i | 0 <= i < |points| && inside(m.transform(Steps(k + 1, dx, dy, dtheta), points[i]));
  }

  method GatherPoints(names: seq<string>, data: map<string, seq<Point>>) returns (points: seq<Point>)
    ensures points == Gathered(names, data)
  {
    points := [];
    for i := 0 to |names|
      invariant points == Gathered(names[..i], data)
    {
      assert names[..i + 1][..i] == names[..i];
      if names[i] in data {
        points := points + data[names[i]];
      }
    }
    assert names[..|names|] == names;
  }

  // getCollisionTime: 0 if enough points are inside already, else the first simulated instant
  // at which enough are, else -1.
  method GetCollisionTime(names: seq<string>, data: map<string, seq<Point>>, m: Motion, v: Velocity,
                          inside: Point -> bool, minPoints: int, horizon: real, step: real) returns (time: real)
    requires step > 0.0
    ensures time == -1.0 || time == 0.0 || 0.0 <= time <= horizon
    ensures |set i | 0 <= i < |Gathered(names, data)| && inside(Gathered(names, data)[i])| >= minPoints ==> time == 0.0
    ensures CountInside(Gathered(names, data), inside) < minPoints && time == -1.0 ==>
      forall k: nat :: (k as real) * step <= horizon ==> !Hit(m, v, Gathered(names, data), inside, minPoints, k)
    ensures CountInside(Gathered(names, data), inside) < minPoints && time != -1.0 ==>
      exists k: nat :: FirstHit(m, v, Gathered(names, data), inside, minPoints, k) && time == (k as real) * step <= horizon
  {
    hide Gathered, CountInside, Transformed;
    CountIsSize(Gathered(names, data), inside);
    var pose, vel := Pose(0.0, 0.0, 0.0), v;
    var points := GatherPoints(names, data);
    var still := CountPoints(points, inside);
    if still >= minPoints {
      return 0.0;
    }
    ghost var limit := (horizon / step).Floor;
    time := 0.0;
    var k: nat := 0;
    while time <= horizon
      invariant time == (k as real) * step && 0.0 <= time && (pose, vel) == Projected(m, v, k)
      invariant forall j: nat :: j < k ==> !Hit(m, v, points, inside, minPoints, j)
      decreases limit + 1 - k
    {
      InstantIndex(k, step, horizon);
      var next := m.project(pose, vel);
      pose, vel := next.0, next.1;
      var moved := CountPoints(Transformed(m, pose, points), inside);
      if moved >= minPoints {
        assert FirstHit(m, v, points, inside, minPoints, k);
        return time;
      }
      time := time + step;
      NextInstant(k, step);
      k := k + 1;
    }
    forall j: nat | (j as real) * step <= horizon
      ensures !Hit(m, v, points, inside, minPoints, j)
    {
      EarlierInstant(j, k, step, horizon);
    }
    return -1.0;
  }

  lemma NextInstant(k: nat, step: real)
    ensures (k as real) * step + step == ((k + 1) as real) * step
  {
  }

  lemma InstantIndex(k: nat, step: real, horizon: real)
    requires step > 0.0 && (k as real) * step <= horizon
    ensures k <= (horizon / step).Floor
  {
    var q := horizon / step;
    assert q * step == horizon;
    ProductOrder(q, k as real, step);
  }

  lemma EarlierInstant(j: nat, k: nat, step: real, horizon: real)
    requires step > 0.0 && (j as real) * step <= horizon && (k as real) * step > horizon
    ensures j < k
  {
    ProductOrder(j as real, k as real, step);
  }

  // ---------- Publishing ----------

  // What persists between calls. lastOut is the last velocity published, selected the last
  // velocity chosen while active, since an arbitrary start.
  datatype Monitor = Monitor(active: bool, prev: Velocity, stopStamp: real, lastOut: Option<Velocity>, selected: Option<Velocity>)

  const RESET: Velocity := Velocity(-1.0, -1.0, -1.0)

  // now is the clock; process runs with the velocity it selected.
  datatype Call = Process(selected: Velocity, now: real) | Activate | Deactivate

  // publishVelocity keeps silent.
  predicate Silent(m: Monitor, v: Velocity, now: real, timeout: real) {
    IsZero(v) && IsZero(m.prev) && now - m.stopStamp > timeout
  }

  function After(m: Monitor, call: Call, timeout: real): Monitor {
    match call
    case Activate => m.(active := true)
    case Deactivate => m.(active := false, prev := RESET)
    case Process(v, now) =>
      if !m.active then m
      else
        m.(stopStamp := if IsZero(v) && !IsZero(m.prev) then now else m.stopStamp,
           lastOut := if Silent(m, v, now, timeout) then m.lastOut else Some(v),
           prev := v,
           selected := Some(v))
  }

  const START: Monitor := Monitor(false, RESET, 0.0, None, None)

  function RunCalls(calls: seq<Call>, timeout: real): Monitor {
    if calls == [] then START else After(RunCalls(calls[..|calls| - 1], timeout), calls[|calls| - 1], timeout)
  }

  // A remembered zero has been published, and was published last.
  ghost predicate Told(m: Monitor) {
    IsZero(m.prev) ==> m.lastOut == Some(m.prev) && m.selected == Some(m.prev)
  }

  lemma StepIsTold(m: Monitor, call: Call, timeout: real)
    requires Told(m)
    ensures Told(After(m, call, timeout))
    ensures call.Process? && m.active ==> After(m, call, timeout).lastOut == Some(call.selected)
  {
    if call.Process? && m.active && Silent(m, call.selected, call.now, timeout) {
      assert call.selected == Velocity(0.0, 0.0, 0.0) == m.prev;
    }
  }

  // After every call of every run, activations and deactivations included: once a velocity
  // was selected while active, the last one published is the last one selected.
  lemma {:induction false} SilenceIsSafe(calls: seq<Call>, timeout: real)
    ensures Told(RunCalls(calls, timeout))
    ensures RunCalls(calls, timeout).lastOut == RunCalls(calls, timeout).selected
    decreases |calls|
  {
    if calls != [] {
      SilenceIsSafe(calls[..|calls| - 1], timeout);
      StepIsTold(RunCalls(calls[..|calls| - 1], timeout), calls[|calls| - 1], timeout);
    }
  }

  // stopped: call k is the zero velocity that ended a movement, and from there on to call n
  // every processed velocity was zero.
  ghost predicate StoppedSince(calls: seq<Call>, k: nat, n: nat) {
    && k < n <= |calls| && calls[k].Process? && IsZero(calls[k].selected)
    && forall j :: k <= j < n ==> calls[j] != Deactivate && (calls[j].Process? ==> IsZero(calls[j].selected))
  }

  // Publishing ceases only when the robot has been told zero and the timeout has passed
  // since the call that first told it.
  lemma {:induction false} StoppedAt(calls: seq<Call>, n: nat, timeout: real) returns (k: nat)
    requires n <= |calls| && IsZero(RunCalls(calls[..n], timeout).prev)
    ensures StoppedSince(calls, k, n) && calls[k].now == RunCalls(calls[..n], timeout).stopStamp
    ensures RunCalls(calls[..n], timeout).active && RunCalls(calls[..n], timeout).lastOut == Some(Velocity(0.0, 0.0, 0.0))
    decreases n
  {
    SilenceIsSafe(calls[..n], timeout);
    assert n > 0;
    assert calls[..n][..n - 1] == calls[..n - 1];
    var m := RunCalls(calls[..n - 1], timeout);
    var m' := RunCalls(calls[..n], timeout);
    assert m' == After(m, calls[n - 1], timeout);
    assert m'.prev == Velocity(0.0, 0.0, 0.0);
    if IsZero(m.prev) {
      k := StoppedAt(calls, n - 1, timeout);
    } else {
      k := n - 1;
    }
  }

  lemma SilentOnlyWhenTold(calls: seq<Call>, n: nat, timeout: real) returns (k: nat)
    requires n < |calls| && calls[n].Process? && Silent(RunCalls(calls[..n], timeout), calls[n].selected, calls[n].now, timeout)
    ensures StoppedSince(calls, k, n) && calls[n].now - calls[k].now > timeout
    ensures RunCalls(calls[..n], timeout).lastOut == Some(Velocity(0.0, 0.0, 0.0))
  {
    k := StoppedAt(calls, n, timeout);
  }

  // Silence does come: an active monitor that selected a movement at call k - 1 and zero from
  // call k on keeps silent once the timeout has passed since call k.
  lemma {:induction false} SilenceComes(calls: seq<Call>, a: nat, k: nat, n: nat, timeout: real)
    requires a < k - 1 && k < n < |calls| && calls[a] == Activate && (forall j :: a < j <= n ==> calls[j].Process?)
    requires !IsZero(calls[k - 1].selected) && (forall j :: k <= j <= n ==> IsZero(calls[j].selected))
    requires calls[n].now - calls[k].now > timeout
    ensures Silent(RunCalls(calls[..n], timeout), calls[n].selected, calls[n].now, timeout)
  {
    StoppedRun(calls, a, k, n, timeout);
  }

  lemma {:induction false} ActiveRun(calls: seq<Call>, a: nat, n: nat, timeout: real)
    requires a < n <= |calls| && calls[a] == Activate && (forall j :: a < j < n ==> calls[j].Process?)
    ensures RunCalls(calls[..n], timeout).active
    ensures n > a + 1 ==> RunCalls(calls[..n], timeout).prev == calls[n - 1].selected
    decreases n
  {
    assert calls[..n][..n - 1] == calls[..n - 1] && calls[..n][n - 1] == calls[n - 1];
    if n > a + 1 {
      ActiveRun(calls, a, n - 1, timeout);
    }
  }

  lemma {:induction false} StoppedRun(calls: seq<Call>, a: nat, k: nat, n: nat, timeout: real)
    requires a < k - 1 && k < n <= |calls| && calls[a] == Activate && (forall j :: a < j < n ==> calls[j].Process?)
    requires !IsZero(calls[k - 1].selected) && (forall j :: k <= j < n ==> IsZero(calls[j].selected))
    ensures RunCalls(calls[..n], timeout).active && IsZero(RunCalls(calls[..n], timeout).prev)
    ensures RunCalls(calls[..n], timeout).stopStamp == calls[k].now
    decreases n
  {
    ActiveRun(calls, a, n, timeout);
    ActiveRun(calls, a, n - 1, timeout);
    assert calls[..n][..n - 1] == calls[..n - 1] && calls[..n][n - 1] == calls[n - 1];
    if n > k + 1 {
      StoppedRun(calls, a, k, n - 1, timeout);
    }
  }

  // From a deactivation to the next activation nothing is published.
  lemma {:induction false} DeactivatedIsQuiet(calls: seq<Call>, k: nat, n: nat, timeout: real)
    requires k < n <= |calls| && calls[k] == Deactivate && (forall j :: k < j < n ==> calls[j] != Activate)
    ensures !RunCalls(calls[..n], timeout).active
    ensures RunCalls(calls[..n], timeout).lastOut == RunCalls(calls[..k], timeout).lastOut
    decreases n
  {
    assert calls[..n][..n - 1] == calls[..n - 1] && calls[..n][n - 1] == calls[n - 1];
    if n > k + 1 {
      DeactivatedIsQuiet(calls, k, n - 1, timeout);
    }
  }

  // The node: process selects and publishes.
  class CollisionMonitor {
    var enabled: bool
    var processActive: bool
    var robotActionPrev: Action
    var stopStamp: real
    const stopPubTimeout: real
    ghost var lastOut: Option<Velocity>
    ghost var selected: Option<Velocity>

    ghost function Value(): Monitor
      reads this
    {
      Monitor(processActive, robotActionPrev.reqVel, stopStamp, lastOut, selected)
    }

    constructor (timeout: real)
      ensures Value() == START && stopPubTimeout == timeout && enabled
    {
      enabled, processActive := true, false;
      robotActionPrev, stopStamp, stopPubTimeout := Action(DoNothing, RESET, ""), 0.0, timeout;
      lastOut, selected := None, None;
    }

    method OnActivate()
      modifies this
      ensures Value() == After(old(Value()), Activate, stopPubTimeout) && enabled == old(enabled)
    {
      processActive := true;
    }

    method OnDeactivate()
      modifies this
      ensures Value() == After(old(Value()), Deactivate, stopPubTimeout) && enabled == old(enabled)
    {
      processActive := false;
      robotActionPrev := Action(DoNothing, RESET, "");
    }

    method PublishVelocity(action: Action, now: real) returns (out: Option<Velocity>)
      modifies this`stopStamp
      ensures out == if Silent(old(Value()), action.reqVel, now, stopPubTimeout) then None else Some(action.reqVel)
      ensures stopStamp == if IsZero(action.reqVel) && !IsZero(robotActionPrev.reqVel) then now else old(stopStamp)
    {
      if IsZero(action.reqVel) {
        if !IsZero(robotActionPrev.reqVel) {
          stopStamp := now;
        } else if now - stopStamp > stopPubTimeout {
          return None;
        }
      }
      return Some(action.reqVel);
    }

    // process: nothing while inactive; otherwise the selected velocity goes out, or is
    // already the last one out.
    method Process(c: Command, sources: seq<Source>, shapes: seq<Shape>, now: real) returns (out: Option<Velocity>)
      modifies this
      ensures enabled == old(enabled)
      ensures Value() == After(old(Value()), Call.Process(Selected(c, sources, shapes, enabled), now), stopPubTimeout)
      ensures out.Some? ==> out == Some(Selected(c, sources, shapes, enabled))
      ensures !old(processActive) ==> out == None
    {
      hide Scale, Factor, Selected;
      if !processActive {
        return None;
      }
      var action := Select(c, sources, shapes, enabled);
      out := PublishVelocity(action, now);
      if out.Some? {
        lastOut := out;
      }
      selected := Some(action.reqVel);
      robotActionPrev := action;
    }
  }
}
