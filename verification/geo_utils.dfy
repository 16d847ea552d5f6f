/**
 * The territory sampler of utils/geoUtils.ts: a random [lat, lng] for a
 * language, drawn in its bounding box and, when the language has a polygon,
 * retried until it falls inside the polygon's outer ring or 100 candidates
 * have been drawn.
 *
 * Math.random is the stream `rand`; a call that draws its k-th candidate
 * reads rand(2k) for the latitude and rand(2k + 1) for the longitude, the
 * order of the two calls in the source. The point-in-polygon library is the
 * predicate `inPolygon`, applied to a [lng, lat] point and a ring.
 */
module GeoUtils {
  import opened Types

  /** Returned when the language has no bounding box (central Turkey). */
  const FallbackPoint: Point := (39.9334, 32.8597)

  /** The retry budget of the rejection loop. */
  const MaxAttempts: nat := 100

  /** A random number in [0, 1) scaled to a span of the box. */
  function Scale(r: real, span: real): real
  {
    r * span
  }

  lemma ScaleBelow(r: real, span: real)
    requires 0.0 <= r < 1.0 && span > 0.0
    ensures 0.0 <= Scale(r, span) < span
  {
    assert (1.0 - r) * span > 0.0;
    assert (1.0 - r) * span == span - r * span;
  }

  /** One uniform draw in the box, as [lat, lng], from two random numbers:
      `Math.random() * (max - min) + min` on each axis. */
  function BoxPoint(b: BBox, rLat: real, rLng: real): Point
  {
    (Scale(rLat, b.maxLat - b.minLat) + b.minLat, Scale(rLng, b.maxLng - b.minLng) + b.minLng)
  }

  /** A draw from numbers in [0, 1) lies in a proper box, upper bounds excluded. */
  lemma BoxPointInBox(b: BBox, rLat: real, rLng: real)
    requires 0.0 <= rLat < 1.0 && 0.0 <= rLng < 1.0 && ProperBox(b)
    ensures InBox(BoxPoint(b, rLat, rLng), b)
  {
    ScaleBelow(rLat, b.maxLat - b.minLat);
    ScaleBelow(rLng, b.maxLng - b.minLng);
  }

  function Swap(p: Point): Point
  {
    (p.1, p.0)
  }

  /** The k-th candidate of the rejection loop, in the [lng, lat] order it is tested in. */
  function Candidate(b: BBox, rand: nat -> real, k: nat): Point
  {
    Swap(BoxPoint(b, rand(2 * k), rand(2 * k + 1)))
  }

  /** The index of the candidate the loop stops at: the first one inside the
      ring, or the last one the budget allows. */
  function Accepted(b: BBox, ring: seq<Point>, rand: nat -> real,
                    inPolygon: (Point, seq<Point>) -> bool, k: nat): (j: nat)
    requires k < MaxAttempts
    ensures k <= j < MaxAttempts
    ensures forall i :: k <= i < j ==> !inPolygon(Candidate(b, rand, i), ring)
    ensures j < MaxAttempts - 1 ==> inPolygon(Candidate(b, rand, j), ring)
    decreases MaxAttempts - k
  {
    if inPolygon(Candidate(b, rand, k), ring) || k == MaxAttempts - 1 then k
    else Accepted(b, ring, rand, inPolygon, k + 1)
  }

  /** The loop stops at `j` when every earlier candidate missed and `j` hit or was the last allowed. */
  lemma AcceptedAt(b: BBox, ring: seq<Point>, rand: nat -> real, inPolygon: (Point, seq<Point>) -> bool, j: nat)
    requires j < MaxAttempts
    requires forall i :: 0 <= i < j ==> !inPolygon(Candidate(b, rand, i), ring)
    requires inPolygon(Candidate(b, rand, j), ring) || j == MaxAttempts - 1
    ensures Accepted(b, ring, rand, inPolygon, 0) == j
  {
  }

  /** True when the sampler runs its rejection loop: a box and a non-empty polygon. */
  predicate PolygonMode(l: Language)
  {
    l.boundingBox.Some? && l.polygon.Some? && |l.polygon.value| > 0
  }

  /** The coordinate the sampler returns, as [lat, lng]. */
  function Sample(l: Language, rand: nat -> real, inPolygon: (Point, seq<Point>) -> bool): Point
  {
    if !PolygonMode(l) then
      if l.boundingBox.Some? then BoxPoint(l.boundingBox.value, rand(0), rand(1))
      else FallbackPoint
    else
      var b, ring := l.boundingBox.value, l.polygon.value[0];
      Swap(Candidate(b, rand, Accepted(b, ring, rand, inPolygon, 0)))
  }

  /** How many candidate points the sampler draws. */
  function Draws(l: Language, rand: nat -> real, inPolygon: (Point, seq<Point>) -> bool): nat
  {
    if !PolygonMode(l) then
      if l.boundingBox.Some? then 1 else 0
    else
      Accepted(l.boundingBox.value, l.polygon.value[0], rand, inPolygon, 0) + 1
  }

  /** The sampler itself: the do-while loop of the source, whose body runs
      before its condition is first tested. */
  method RandomCoordinates(language: Language, rand: nat -> real,
                           inPolygon: (Point, seq<Point>) -> bool)
    returns (coords: Point, draws: nat)
    ensures coords == Sample(language, rand, inPolygon)
    ensures draws == Draws(language, rand, inPolygon)
  {
    if language.boundingBox.None? || language.polygon.None? || |language.polygon.value| == 0 {
      if language.boundingBox.Some? {
        var b := language.boundingBox.value;
        var lat := Scale(rand(0), b.maxLat - b.minLat) + b.minLat;
        var lng := Scale(rand(1), b.maxLng - b.minLng) + b.minLng;
        return (lat, lng), 1;
      }
      return FallbackPoint, 0;
    }

    var b := language.boundingBox.value;
    var ring := language.polygon.value[0];
    var randomPoint: Point := (0.0, 0.0);
    var isInside := false;
    var attempts := 0;
    while true
      invariant 0 <= attempts < MaxAttempts
      invariant forall i :: 0 <= i < attempts ==> !inPolygon(Candidate(b, rand, i), ring)
      decreases MaxAttempts - attempts
    {
      var lat := Scale(rand(2 * attempts), b.maxLat - b.minLat) + b.minLat;
      var lng := Scale(rand(2 * attempts + 1), b.maxLng - b.minLng) + b.minLng;
      randomPoint := (lng, lat);
      assert randomPoint == Candidate(b, rand, attempts);
      isInside := inPolygon(randomPoint, ring);
      attempts := attempts + 1;
      if !(!isInside && attempts < MaxAttempts) {
        break;
      }
    }
    assert randomPoint == Candidate(b, rand, attempts - 1);
    AcceptedAt(b, ring, rand, inPolygon, attempts - 1);
    coords, draws := (randomPoint.1, randomPoint.0), attempts;
  }

  // ---------------------------------------------------------------------
  // What the sampler promises.

  /** Without a bounding box the fixed fallback point comes back and nothing is drawn. */
  lemma SampleWithoutBox(l: Language, rand: nat -> real, inPolygon: (Point, seq<Point>) -> bool)
    requires l.boundingBox.None?
    ensures Sample(l, rand, inPolygon) == (39.9334, 32.8597)
    ensures Draws(l, rand, inPolygon) == 0
  {
  }

  /** With a box but no polygon (or an empty one) there is exactly one draw,
      and it lies in the box. */
  lemma SampleBoxOnly(l: Language, rand: nat -> real, inPolygon: (Point, seq<Point>) -> bool)
    requires l.boundingBox.Some? && (l.polygon.None? || l.polygon.value == [])
    ensures Draws(l, rand, inPolygon) == 1
    ensures Sample(l, rand, inPolygon) == BoxPoint(l.boundingBox.value, rand(0), rand(1))
    ensures UnitStream(rand) && ProperBox(l.boundingBox.value) ==>
              InBox(Sample(l, rand, inPolygon), l.boundingBox.value)
  {
    if UnitStream(rand) && ProperBox(l.boundingBox.value) {
      BoxPointInBox(l.boundingBox.value, rand(0), rand(1));
    }
  }

  /** The rejection loop draws at least one and at most 100 candidates. */
  lemma SampleDrawsBounded(l: Language, rand: nat -> real, inPolygon: (Point, seq<Point>) -> bool)
    requires PolygonMode(l)
    ensures 1 <= Draws(l, rand, inPolygon) <= MaxAttempts
  {
  }

  /** If candidate j is the first of the first 100 inside the outer ring, it is
      returned (swapped to [lat, lng]) and no later candidate is drawn. */
  lemma SampleFirstHit(l: Language, rand: nat -> real, inPolygon: (Point, seq<Point>) -> bool, j: nat)
    requires PolygonMode(l) && j < MaxAttempts
    requires inPolygon(Candidate(l.boundingBox.value, rand, j), l.polygon.value[0])
    requires forall i :: 0 <= i < j ==> !inPolygon(Candidate(l.boundingBox.value, rand, i), l.polygon.value[0])
    ensures Sample(l, rand, inPolygon) == Swap(Candidate(l.boundingBox.value, rand, j))
    ensures Sample(l, rand, inPolygon) == BoxPoint(l.boundingBox.value, rand(2 * j), rand(2 * j + 1))
    ensures Draws(l, rand, inPolygon) == j + 1
  {
    AcceptedAt(l.boundingBox.value, l.polygon.value[0], rand, inPolygon, j);
  }

  /** When none of the 100 candidates is inside, the 100th is returned anyway. */
  lemma SampleExhausted(l: Language, rand: nat -> real, inPolygon: (Point, seq<Point>) -> bool)
    requires PolygonMode(l)
    requires forall i :: 0 <= i < MaxAttempts ==> !inPolygon(Candidate(l.boundingBox.value, rand, i), l.polygon.value[0])
    ensures Sample(l, rand, inPolygon) == Swap(Candidate(l.boundingBox.value, rand, MaxAttempts - 1))
    ensures Draws(l, rand, inPolygon) == MaxAttempts
  {
    AcceptedAt(l.boundingBox.value, l.polygon.value[0], rand, inPolygon, MaxAttempts - 1);
  }

  /** Every candidate of the rejection loop, swapped back to [lat, lng], lies in the box. */
  lemma CandidateInBox(b: BBox, rand: nat -> real, k: nat)
    requires ProperBox(b) && UnitStream(rand)
    ensures InBox(Swap(Candidate(b, rand, k)), b)
  {
    BoxPointInBox(b, rand(2 * k), rand(2 * k + 1));
  }

  /** Whatever the mode, a sampled point lies in the language's bounding box. */
  lemma SampleInBox(l: Language, rand: nat -> real, inPolygon: (Point, seq<Point>) -> bool)
    requires l.boundingBox.Some? && ProperBox(l.boundingBox.value) && UnitStream(rand)
    ensures InBox(Sample(l, rand, inPolygon), l.boundingBox.value)
  {
    var b := l.boundingBox.value;
    if PolygonMode(l) {
      CandidateInBox(b, rand, Accepted(b, l.polygon.value[0], rand, inPolygon, 0));
    } else {
      BoxPointInBox(b, rand(0), rand(1));
    }
  }

  /** Only the outer ring is tested: rings after the first never change the result. */
  lemma SampleUsesOuterRingOnly(l: Language, holes: seq<seq<Point>>, rand: nat -> real,
                                inPolygon: (Point, seq<Point>) -> bool)
    requires PolygonMode(l)
    ensures var l' := l.(polygon := Some([l.polygon.value[0]] + holes));
            Sample(l', rand, inPolygon) == Sample(l, rand, inPolygon) &&
            Draws(l', rand, inPolygon) == Draws(l, rand, inPolygon)
  {
  }
}
