/** The arc object: the inversion loop and its sixteen-entry cache updated in
    place, with the counters that describe it (src/ArcInterpolation.cpp 177-231). */
module ArcReferenceObject {

  import opened Text
  import opened Arithmetic
  import opened ArcInversion

  const CACHE_SIZE := 16

  datatype CacheEntry = CacheEntry(distance: real, parameter: real, valid: bool)

  lemma ParameterInside(c: Curve, nodes: seq<LengthNode>, distance: real)
    requires IsTable(c, nodes) && 0.0 < distance < TotalLength(c)
    ensures var i := LowerBound(nodes, distance);
            && 0 < i < |nodes| && nodes[i - 1].distance < nodes[i].distance
            && Parameter(c, nodes, distance)
               == Refine(c, nodes[i - 1], distance, Tolerance(TotalLength(c)), Seed(nodes[i - 1], nodes[i], distance), 12)
  {
    BracketExists(c, nodes, distance);
  }

  lemma RefineStep(c: Curve, lower: LengthNode, distance: real, tolerance: real, b: Bracket, left: nat)
    requires left > 0
    ensures var error := ErrorAt(c, lower, distance, b.parameter);
            Refine(c, lower, distance, tolerance, b, left)
            == if Abs(error) <= tolerance then b.parameter
               else Refine(c, lower, distance, tolerance, Shrink(c, b, error), left - 1)
  {}

  lemma RefineDone(c: Curve, lower: LengthNode, distance: real, tolerance: real, b: Bracket)
    ensures Refine(c, lower, distance, tolerance, b, 0) == b.parameter
  {}

  class ArcReference {
    const curve: Curve
    const hash: real -> nat
    const nodes: seq<LengthNode>
    const inverseCache: array<CacheEntry>
    var queries: nat
    var endpointQueries: nat
    var exactCacheHits: nat
    var inversions: nat
    var newtonIterations: nat
    var safeguardedBisections: nat
    var iterationLimitHits: nat

    /** Every valid entry holds the answer its distance has without a cache. */
    ghost predicate CacheOk()
      reads inverseCache
      requires IsTable(curve, nodes)
    {
      forall i | 0 <= i < inverseCache.Length && inverseCache[i].valid ::
        inverseCache[i].parameter == Parameter(curve, nodes, inverseCache[i].distance)
    }

    ghost predicate Valid()
      reads this, inverseCache
    {
      && IsLength(curve) && IsTable(curve, nodes)
      && (forall d :: hash(d) < CACHE_SIZE)
      && inverseCache.Length == CACHE_SIZE
      && CacheOk()
      && queries == endpointQueries + exactCacheHits + inversions
      && newtonIterations <= 12 * inversions
      && safeguardedBisections <= newtonIterations
      && iterationLimitHits <= inversions
    }

    constructor (c: Curve, h: real -> nat)
      requires IsLength(c) && forall d :: h(d) < CACHE_SIZE
      ensures Valid() && curve == c && hash == h && fresh(inverseCache)
    {
      curve, hash := c, h;
      var table := BuildTable(c);
      nodes := table;
      inverseCache := new CacheEntry[CACHE_SIZE](_ => CacheEntry(0.0, 0.0, false));
      queries, endpointQueries, exactCacheHits, inversions := 0, 0, 0, 0;
      newtonIterations, safeguardedBisections, iterationLimitHits := 0, 0, 0;
    }

    /** The end of a failed iteration: bracket, then Newton or bisection. */
    method NextBracket(b: Bracket, error: real) returns (n: Bracket, bisected: bool)
      ensures n == Shrink(curve, b, error)
    {
      var begin, end := b.from, b.to;
      if error < 0.0 {
        begin := b.parameter;
      } else {
        end := b.parameter;
      }
      var localSpeed := curve.speed(b.parameter);
      var newton := if localSpeed > 0.000000000000001 then b.parameter - error / localSpeed else b.parameter;
      bisected := !(begin < newton && newton < end);
      n := Bracket(begin, end, if bisected then Midpoint(begin, end) else newton);
    }

    /** The Newton loop of a distance strictly inside the arc. */
    method Invert(distance: real) returns (parameter: real)
      requires IsTable(curve, nodes) && 0.0 < distance < TotalLength(curve)
      modifies this`newtonIterations, this`safeguardedBisections, this`iterationLimitHits
      ensures parameter == Parameter(curve, nodes, distance)
      ensures old(newtonIterations) <= newtonIterations <= old(newtonIterations) + 12
      ensures old(safeguardedBisections) <= safeguardedBisections
      ensures safeguardedBisections - old(safeguardedBisections) <= newtonIterations - old(newtonIterations)
      ensures old(iterationLimitHits) <= iterationLimitHits <= old(iterationLimitHits) + 1
    {
      hide *;
      ParameterInside(curve, nodes, distance);
      var upper := LowerBound(nodes, distance);
      var lower := nodes[upper - 1];
      ghost var seed := Seed(lower, nodes[upper], distance);
      var bracket := Seed(lower, nodes[upper], distance);
      var tolerance := Tolerance(TotalLength(curve));
      var iteration := 0;
      while iteration < 12
        invariant 0 <= iteration <= 12
        invariant Refine(curve, lower, distance, tolerance, seed, 12)
               == Refine(curve, lower, distance, tolerance, bracket, 12 - iteration)
        invariant newtonIterations == old(newtonIterations) + iteration
        invariant old(safeguardedBisections) <= safeguardedBisections <= old(safeguardedBisections) + iteration
        invariant iterationLimitHits == old(iterationLimitHits)
      {
        RefineStep(curve, lower, distance, tolerance, bracket, 12 - iteration);
        var error := ErrorAt(curve, lower, distance, bracket.parameter);
        newtonIterations := newtonIterations + 1;
        if Abs(error) <= tolerance {
          return bracket.parameter;
        }
        var bisected;
        bracket, bisected := NextBracket(bracket, error);
        if bisected {
          safeguardedBisections := safeguardedBisections + 1;
        }
        iteration := iteration + 1;
      }
      RefineDone(curve, lower, distance, tolerance, bracket);
      iterationLimitHits := iterationLimitHits + 1;
      parameter := bracket.parameter;
    }

    /** Whatever was asked before and whatever the hash, the answer is the one
        without a cache. */
    method ParameterAtDistance(requested: real) returns (parameter: real)
      requires Valid()
      modifies this, inverseCache
      ensures Valid()
      ensures parameter == Parameter(curve, nodes, requested)
    {
      if TotalLength(curve) <= 0.0 {
        return 1.0;
      }
      queries := queries + 1;
      var distance := Clamped(requested, TotalLength(curve));
      if distance == 0.0 {
        endpointQueries := endpointQueries + 1;
        return 0.0;
      }
      if distance == TotalLength(curve) {
        endpointQueries := endpointQueries + 1;
        return 1.0;
      }
      assert Parameter(curve, nodes, requested) == Parameter(curve, nodes, distance);
      var slot := hash(distance);
      if inverseCache[slot].valid && inverseCache[slot].distance == distance {
        exactCacheHits := exactCacheHits + 1;
        return inverseCache[slot].parameter;
      }
      parameter := Invert(distance);
      inversions := inversions + 1;
      inverseCache[slot] := CacheEntry(distance, parameter, true);
    }
  }

  /** Any sequence of queries gets the uncached answers, in order. */
  method AnswerAll(arc: ArcReference, distances: seq<real>) returns (answers: seq<real>)
    requires arc.Valid()
    modifies arc, arc.inverseCache
    ensures arc.Valid() && |answers| == |distances|
    ensures forall i | 0 <= i < |distances| :: answers[i] == Parameter(arc.curve, arc.nodes, distances[i])
  {
    answers := [];
    for i := 0 to |distances|
      invariant arc.Valid() && |answers| == i
      invariant forall k | 0 <= k < i :: answers[k] == Parameter(arc.curve, arc.nodes, distances[k])
    {
      var answer := arc.ParameterAtDistance(distances[i]);
      answers := answers + [answer];
    }
  }
}
