/** Inverting arc length: the node table, safeguarded Newton inside one table
    interval, and the direct-mapped cache in front of it
    (src/ArcInterpolation.cpp 51-75, 110-116 and 160-231). */
module ArcInversion {

  import opened Arithmetic

  /** The curve: what the quadrature gives between two parameters, and the speed
      Newton divides by, which may be anything. */
  datatype Curve = Curve(integral: (real, real) -> real, speed: real -> real)

  /** An additive, non-negative length over the parameters 0 to 1. */
  ghost predicate IsLength(c: Curve) {
    && (forall a, b | 0.0 <= a <= b <= 1.0 :: c.integral(a, b) >= 0.0)
    && (forall a, b, d | 0.0 <= a <= b <= d <= 1.0 :: c.integral(a, b) + c.integral(b, d) == c.integral(a, d))
  }

  function IntegratedLength(c: Curve, begin: real, end: real): real {
    if end <= begin then 0.0 else c.integral(begin, end)
  }

  /** True arc length up to a parameter. */
  function LengthTo(c: Curve, p: real): real { IntegratedLength(c, 0.0, p) }

  lemma LengthAdds(c: Curve, a: real, b: real)
    requires IsLength(c) && 0.0 <= a <= b <= 1.0
    ensures LengthTo(c, a) + IntegratedLength(c, a, b) == LengthTo(c, b)
    ensures LengthTo(c, a) <= LengthTo(c, b)
  {
    if a == 0.0 {
    } else if a == b {
    } else {
      assert c.integral(0.0, a) + c.integral(a, b) == c.integral(0.0, b);
    }
  }

  // ----- the node table

  const INTERVALS := 64

  datatype LengthNode = LengthNode(parameter: real, distance: real)

  function NodeParameter(i: nat): (p: real)
    requires i <= INTERVALS
    ensures 0.0 <= p <= 1.0
  {
    i as real / 64.0
  }

  function TotalLength(c: Curve): real { LengthTo(c, 1.0) }

  /** The table is exact at its parameters. */
  ghost predicate IsTable(c: Curve, nodes: seq<LengthNode>) {
    && |nodes| == INTERVALS + 1
    && forall i | 0 <= i <= INTERVALS :: nodes[i] == LengthNode(NodeParameter(i), LengthTo(c, NodeParameter(i)))
  }

  /** The constructor's loop: each node adds one interval's integral, and the
      last distance is the whole length. */
  method BuildTable(c: Curve) returns (nodes: seq<LengthNode>)
    requires IsLength(c)
    ensures IsTable(c, nodes)
  {
    nodes := [LengthNode(0.0, 0.0)];
    var cumulative := 0.0;
    var index := 1;
    while index <= INTERVALS
      invariant 1 <= index <= INTERVALS + 1 && |nodes| == index
      invariant cumulative == LengthTo(c, NodeParameter(index - 1))
      invariant forall i | 0 <= i < index :: nodes[i] == LengthNode(NodeParameter(i), LengthTo(c, NodeParameter(i)))
    {
      var parameter := NodeParameter(index);
      LengthAdds(c, NodeParameter(index - 1), parameter);
      cumulative := cumulative + IntegratedLength(c, NodeParameter(index - 1), parameter);
      nodes := nodes + [LengthNode(parameter, cumulative)];
      index := index + 1;
    }
    assert NodeParameter(INTERVALS) == 1.0;
    nodes := nodes[INTERVALS := nodes[INTERVALS].(distance := TotalLength(c))];
  }

  /** std::lower_bound by distance: the first node not short of it. */
  function LowerBound(nodes: seq<LengthNode>, distance: real): (i: nat)
    ensures i <= |nodes|
    ensures forall k | 0 <= k < i :: nodes[k].distance < distance
    ensures i < |nodes| ==> nodes[i].distance >= distance
    decreases |nodes|
  {
    if nodes == [] then 0
    else
      var n := |nodes| - 1;
      var i := LowerBound(nodes[..n], distance);
      if i < n then i else if nodes[n].distance < distance then n + 1 else n
  }

  /** A distance strictly inside the arc always falls in one table interval. */
  lemma BracketExists(c: Curve, nodes: seq<LengthNode>, distance: real)
    requires IsTable(c, nodes) && 0.0 < distance < TotalLength(c)
    ensures var upper := LowerBound(nodes, distance);
            0 < upper <= INTERVALS && nodes[upper - 1].distance < distance <= nodes[upper].distance
  {
    assert nodes[0].distance == 0.0;
    assert NodeParameter(INTERVALS) == 1.0;
    assert nodes[INTERVALS].distance == TotalLength(c);
  }

  // ----- safeguarded Newton

  function Tolerance(length: real): real { 0.000000000001 * (if length > 1.0 then length else 1.0) }

  datatype Bracket = Bracket(from: real, to: real, parameter: real)

  function Midpoint(a: real, b: real): real { (a + b) / 2.0 }

  function Lerp(a: real, b: real, t: real): real { a + Product(t, b - a) }

  /** The error at the bracket's parameter, integrated from the table node. */
  function ErrorAt(c: Curve, lower: LengthNode, distance: real, parameter: real): real {
    lower.distance + IntegratedLength(c, lower.parameter, parameter) - distance
  }

  /** One failed iteration: shrink the bracket, then Newton if it lands strictly
      inside, else the midpoint. */
  function Shrink(c: Curve, b: Bracket, error: real): Bracket {
    var begin := if error < 0.0 then b.parameter else b.from;
    var end := if error < 0.0 then b.to else b.parameter;
    var localSpeed := c.speed(b.parameter);
    var newton := if localSpeed > 0.000000000000001 then b.parameter - error / localSpeed else b.parameter;
    Bracket(begin, end, if begin < newton < end then newton else Midpoint(begin, end))
  }

  /** At constant speed one step lands on the parameter sought, if that lies
      strictly inside the bracket. */
  lemma StepIsExactAtConstantSpeed(c: Curve, lower: LengthNode, distance: real, b: Bracket, speed: real)
    requires speed > 0.000000000000001 && c.speed(b.parameter) == speed && lower.parameter < b.parameter
    requires c.integral(lower.parameter, b.parameter) == Product(speed, b.parameter - lower.parameter)
    requires var sought := lower.parameter + (distance - lower.distance) / speed;
             b.from < sought < b.to && sought != b.parameter
    ensures Shrink(c, b, ErrorAt(c, lower, distance, b.parameter)).parameter
         == lower.parameter + (distance - lower.distance) / speed
  {
    var sought := lower.parameter + (distance - lower.distance) / speed;
    var error := ErrorAt(c, lower, distance, b.parameter);
    ErrorIsScaled(speed, b.parameter - lower.parameter, distance - lower.distance);
    assert error == Product(speed, b.parameter - sought) && error / speed == b.parameter - sought;
    SignOfError(speed, b.parameter - sought);
  }

  lemma ErrorIsScaled(speed: real, p: real, d: real)
    requires speed > 0.0
    ensures Product(speed, p) - d == Product(speed, p - d / speed)
    ensures (Product(speed, p) - d) / speed == p - d / speed
  {
    QuotientTimes(d, speed);
    assert Product(speed, d / speed) == d;
  }

  lemma SignOfError(speed: real, gap: real)
    requires speed > 0.0
    ensures Product(speed, gap) < 0.0 <==> gap < 0.0
  {}

  function Refine(c: Curve, lower: LengthNode, distance: real, tolerance: real, b: Bracket, left: nat): real
    decreases left
  {
    if left == 0 then b.parameter
    else
      var error := ErrorAt(c, lower, distance, b.parameter);
      if Abs(error) <= tolerance then b.parameter
      else Refine(c, lower, distance, tolerance, Shrink(c, b, error), left - 1)
  }

  function Seed(lower: LengthNode, upper: LengthNode, distance: real): Bracket
    requires lower.distance < upper.distance
  {
    Bracket(lower.parameter, upper.parameter,
            Lerp(lower.parameter, upper.parameter,
                 (distance - lower.distance) / (upper.distance - lower.distance)))
  }

  function Inside(c: Curve, nodes: seq<LengthNode>, distance: real): real
    requires 0 < LowerBound(nodes, distance) < |nodes|
  {
    var i := LowerBound(nodes, distance);
    Refine(c, nodes[i - 1], distance, Tolerance(TotalLength(c)), Seed(nodes[i - 1], nodes[i], distance), 12)
  }

  function Clamped(distance: real, length: real): real {
    if distance < 0.0 then 0.0 else if distance > length then length else distance
  }

  /** The answer without a cache. */
  ghost function Parameter(c: Curve, nodes: seq<LengthNode>, requested: real): real
    requires IsTable(c, nodes)
  {
    if TotalLength(c) <= 0.0 then 1.0
    else
      var distance := Clamped(requested, TotalLength(c));
      if distance == 0.0 then 0.0
      else if distance == TotalLength(c) then 1.0
      else
        BracketExists(c, nodes, distance);
        Inside(c, nodes, distance)
  }

  // ----- what the iteration keeps

  /** The parameter and the distance sought both lie in the bracket, which lies
      in the table interval. */
  ghost predicate Brackets(c: Curve, lower: LengthNode, upper: LengthNode, distance: real, b: Bracket) {
    && lower.parameter <= b.from <= b.parameter <= b.to <= upper.parameter
    && LengthTo(c, b.from) < distance <= LengthTo(c, b.to)
  }

  ghost predicate TableInterval(c: Curve, lower: LengthNode, upper: LengthNode, distance: real) {
    && 0.0 <= lower.parameter <= upper.parameter <= 1.0
    && lower.distance == LengthTo(c, lower.parameter) && upper.distance == LengthTo(c, upper.parameter)
    && lower.distance < distance <= upper.distance
  }

  lemma ErrorIsTrue(c: Curve, lower: LengthNode, upper: LengthNode, distance: real, b: Bracket)
    requires IsLength(c) && TableInterval(c, lower, upper, distance) && Brackets(c, lower, upper, distance, b)
    ensures ErrorAt(c, lower, distance, b.parameter) == LengthTo(c, b.parameter) - distance
  {
    LengthAdds(c, lower.parameter, b.parameter);
  }

  /** Every iteration keeps the bracket, and only ever narrows it. */
  lemma ShrinkKeepsBracket(c: Curve, lower: LengthNode, upper: LengthNode, distance: real, tolerance: real, b: Bracket)
    requires IsLength(c) && TableInterval(c, lower, upper, distance) && Brackets(c, lower, upper, distance, b)
    requires tolerance >= 0.0 && Abs(ErrorAt(c, lower, distance, b.parameter)) > tolerance
    ensures var n := Shrink(c, b, ErrorAt(c, lower, distance, b.parameter));
            Brackets(c, lower, upper, distance, n) && b.from <= n.from && n.to <= b.to
  {
    ErrorIsTrue(c, lower, upper, distance, b);
  }

  lemma SeedBrackets(c: Curve, lower: LengthNode, upper: LengthNode, distance: real)
    requires IsLength(c) && TableInterval(c, lower, upper, distance)
    ensures Brackets(c, lower, upper, distance, Seed(lower, upper, distance))
  {
    var t := (distance - lower.distance) / (upper.distance - lower.distance);
    FractionIsUnit(distance - lower.distance, upper.distance - lower.distance);
    LerpIsBetween(lower.parameter, upper.parameter, t);
  }

  lemma FractionIsUnit(a: real, b: real)
    requires 0.0 < a <= b
    ensures 0.0 <= a / b <= 1.0
  {}

  lemma LerpIsBetween(a: real, b: real, t: real)
    requires a <= b && 0.0 <= t <= 1.0
    ensures a <= Lerp(a, b, t) <= b
  {
    hide Product;
    ScaledDown(t, b - a);
  }

  lemma ScaledDown(t: real, d: real)
    requires 0.0 <= t <= 1.0 && d >= 0.0
    ensures 0.0 <= Product(t, d) <= d
  {
    ProductGrows(0.0, t, d);
    ProductGrows(t, 1.0, d);
    assert Product(0.0, d) == 0.0 && Product(1.0, d) == d;
  }

  /** Within tolerance, or inside a bracket that still holds the distance. */
  ghost predicate Settled(c: Curve, lower: LengthNode, upper: LengthNode, distance: real, tolerance: real, p: real) {
    || Abs(LengthTo(c, p) - distance) <= tolerance
    || exists b: Bracket :: Brackets(c, lower, upper, distance, b) && b.parameter == p
  }

  lemma {:induction false} RefineSettles(
    c: Curve, lower: LengthNode, upper: LengthNode, distance: real, tolerance: real, b: Bracket, left: nat)
    requires IsLength(c) && TableInterval(c, lower, upper, distance) && Brackets(c, lower, upper, distance, b)
    requires tolerance >= 0.0
    ensures var p := Refine(c, lower, distance, tolerance, b, left);
            && b.from <= p <= b.to
            && Settled(c, lower, upper, distance, tolerance, p)
    decreases left
  {
    if left > 0 {
      var error := ErrorAt(c, lower, distance, b.parameter);
      ErrorIsTrue(c, lower, upper, distance, b);
      if Abs(error) > tolerance {
        ShrinkKeepsBracket(c, lower, upper, distance, tolerance, b);
        RefineSettles(c, lower, upper, distance, tolerance, Shrink(c, b, error), left - 1);
      }
    }
  }

  lemma ChosenInterval(c: Curve, nodes: seq<LengthNode>, distance: real)
    requires IsLength(c) && IsTable(c, nodes) && 0.0 < distance < TotalLength(c)
    ensures var i := LowerBound(nodes, distance);
            && 0 < i <= INTERVALS
            && TableInterval(c, nodes[i - 1], nodes[i], distance)
  {
    BracketExists(c, nodes, distance);
    var i := LowerBound(nodes, distance);
    assert nodes[i - 1] == LengthNode(NodeParameter(i - 1), LengthTo(c, NodeParameter(i - 1)));
    assert nodes[i] == LengthNode(NodeParameter(i), LengthTo(c, NodeParameter(i)));
  }

  /** For every additive length, every speed and every distance inside the arc:
      the answer lies in the table interval that holds the distance, is within
      tolerance or inside a bracket of it, and so is never off by more than the
      length of one table interval. */
  lemma InversionIsBracketed(c: Curve, nodes: seq<LengthNode>, distance: real)
    requires IsLength(c) && IsTable(c, nodes) && 0.0 < distance < TotalLength(c)
    ensures var i := LowerBound(nodes, distance);
            var p := Parameter(c, nodes, distance);
            && 0 < i <= INTERVALS
            && nodes[i - 1].parameter <= p <= nodes[i].parameter
            && Settled(c, nodes[i - 1], nodes[i], distance, Tolerance(TotalLength(c)), p)
            && Abs(LengthTo(c, p) - distance) <= nodes[i].distance - nodes[i - 1].distance
  {
    ChosenInterval(c, nodes, distance);
    var i := LowerBound(nodes, distance);
    var lower, upper := nodes[i - 1], nodes[i];
    SeedBrackets(c, lower, upper, distance);
    RefineSettles(c, lower, upper, distance, Tolerance(TotalLength(c)), Seed(lower, upper, distance), 12);
    var p := Parameter(c, nodes, distance);
    assert p == Refine(c, lower, distance, Tolerance(TotalLength(c)), Seed(lower, upper, distance), 12);
    LengthAdds(c, lower.parameter, p);
    LengthAdds(c, p, upper.parameter);
  }

  /** Distances in different table intervals keep their order. */
  lemma IntervalsKeepOrder(c: Curve, nodes: seq<LengthNode>, near: real, far: real)
    requires IsLength(c) && IsTable(c, nodes) && 0.0 < near < far < TotalLength(c)
    requires LowerBound(nodes, near) != LowerBound(nodes, far)
    ensures Parameter(c, nodes, near) <= Parameter(c, nodes, far)
  {
    InversionIsBracketed(c, nodes, near);
    InversionIsBracketed(c, nodes, far);
    var i, j := LowerBound(nodes, near), LowerBound(nodes, far);
    assert i < j;
    assert nodes[i].parameter == NodeParameter(i) && nodes[j - 1].parameter == NodeParameter(j - 1);
  }
}
