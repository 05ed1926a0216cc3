/** Day 10 (day_10/src/main.rs): asteroids on a grid, and the station that sees the most of them.
    Two asteroids are in line of sight of a third when the vectors to them
    reduce to the same slope; the station is the asteroid with the most
    distinct slopes to the others. */

module Day10 {
  import opened Common

  /** An asteroid at column `x` and row `y`; the derived order compares
      `x` first and then `y`. */
  datatype Asteroid = Asteroid(x: int, y: int)

  /** A direction reduced by the gcd of its components. */
  type Direction = (int, int)

  const Origin := Asteroid(0, 0)

  /** Strict order derived from the field order: `x`, then `y`. */
  predicate Below(a: Asteroid, b: Asteroid) {
    a.x < b.x || (a.x == b.x && a.y < b.y)
  }

  /** Componentwise difference. */
  function Minus(a: Asteroid, b: Asteroid): (r: Asteroid)
    ensures r.x == a.x - b.x && r.y == a.y - b.y
    ensures r == Origin <==> a == b
  {
    Asteroid(a.x - b.x, a.y - b.y)
  }

  // ---------------------------------------------------------------------
  // Division and gcd

  /** Integer division rounding toward zero, as on machine integers. */
  function TruncDiv(n: int, d: int): int
    requires d > 0
  {
    if n >= 0 then n / d else -((-n) / d)
  }

  /** Euclid's algorithm on magnitudes; the gcd of 0 and 0 is 0. */
  function Gcd(a: nat, b: nat): nat
    decreases b
  {
    if b == 0 then a else Gcd(b, a % b)
  }

  /** Euclidean division is determined by its defining equation. */
  lemma DivModUnique(n: int, d: int, q: int, r: int)
    requires d > 0 && 0 <= r < d && n == q * d + r
    ensures n / d == q && n % d == r
  {
    var q' := n / d;
    if q' > q {
      assert (q' - q) * d >= d by { MulAtLeast(q' - q, d); }
      assert false;
    } else if q' < q {
      assert (q - q') * d >= d by { MulAtLeast(q - q', d); }
      assert false;
    }
  }

  lemma MulAtLeast(m: int, d: int)
    requires m >= 1 && d > 0
    ensures m * d >= d
  {
  }

  /** Scaling both operands by `k` scales the remainder and keeps the
      quotient. */
  lemma DivModScale(n: nat, d: int, k: int)
    requires d > 0 && k > 0
    ensures (k * n) / (k * d) == n / d
    ensures (k * n) % (k * d) == k * (n % d)
  {
    var q, r := n / d, n % d;
    assert k * n == q * (k * d) + k * r;
    assert k * r < k * d;
    DivModUnique(k * n, k * d, q, k * r);
  }

  lemma GcdZero(a: nat, b: nat)
    ensures Gcd(a, b) == 0 <==> a == 0 && b == 0
    decreases b
  {
    if b != 0 {
      GcdZero(b, a % b);
    }
  }

  /** The gcd divides both operands. */
  lemma {:induction false} GcdDivides(a: nat, b: nat)
    requires Gcd(a, b) > 0
    ensures a % Gcd(a, b) == 0 && b % Gcd(a, b) == 0
    decreases b
  {
    if b != 0 {
      var g := Gcd(b, a % b);
      assert Gcd(a, b) == g;
      GcdDivides(b, a % b);
      var t, c := a / b, a % b;
      var p, s := b / g, c / g;
      DivExact(b, g);
      DivExact(c, g);
      assert a == t * b + c;
      Factor(a, t, g, p, s);
      DivModUnique(a, g, t * p + s, 0);
    }
  }

  lemma DivExact(n: nat, g: nat)
    requires g > 0 && n % g == 0
    ensures n == g * (n / g)
  {
  }

  lemma Factor(a: int, t: int, g: int, p: int, s: int)
    requires a == t * (g * p) + g * s
    ensures a == (t * p + s) * g
  {
  }

  /** Multiplying both operands by `k` multiplies the gcd by `k`. */
  lemma {:induction false} GcdScale(a: nat, b: nat, k: nat)
    requires k > 0
    ensures Gcd(k * a, k * b) == k * Gcd(a, b)
    decreases b
  {
    if b != 0 {
      DivModScale(a, b, k);
      GcdScale(b, a % b, k);
    }
  }

  // ---------------------------------------------------------------------
  // Slopes

  function GcdOf(v: Asteroid): nat {
    Gcd(Abs(v.x), Abs(v.y))
  }

  /** Divides both components by their gcd, leaving the zero vector as
      it is. */
  function Slope(v: Asteroid): (r: Direction)
    ensures GcdOf(v) == 0 <==> v == Origin
    ensures v == Origin ==> r == (0, 0)
    ensures v != Origin ==> v.x == GcdOf(v) * r.0 && v.y == GcdOf(v) * r.1
  {
    var g := GcdOf(v);
    GcdZero(Abs(v.x), Abs(v.y));
    if g == 0 then
      (v.x, v.y)
    else
      GcdDivides(Abs(v.x), Abs(v.y));
      assert Abs(v.x) == g * (Abs(v.x) / g);
      assert Abs(v.y) == g * (Abs(v.y) / g);
      (TruncDiv(v.x, g), TruncDiv(v.y, g))
  }

  /** The slope from `b` to `a`. */
  function SlopeBetween(a: Asteroid, b: Asteroid): (r: Direction)
    ensures r == (0, 0) <==> a == b
  {
    Slope(Minus(a, b))
  }

  /** The slope from `a` to `b` is the reverse of the slope from `b` to
      `a`. */
  lemma SlopeBetweenReverses(a: Asteroid, b: Asteroid)
    ensures SlopeBetween(b, a) == (-SlopeBetween(a, b).0, -SlopeBetween(a, b).1)
  {
    SlopeNegates(Minus(a, b));
  }

  /** Reversing a vector reverses its slope. */
  lemma SlopeNegates(v: Asteroid)
    ensures Slope(Asteroid(-v.x, -v.y)) == (-Slope(v).0, -Slope(v).1)
  {
    assert GcdOf(Asteroid(-v.x, -v.y)) == GcdOf(v);
  }

  function Scaled(v: Asteroid, k: int): Asteroid {
    Asteroid(k * v.x, k * v.y)
  }

  lemma TruncDivScale(n: int, d: int, k: int)
    requires d > 0 && k > 0
    ensures TruncDiv(k * n, k * d) == TruncDiv(n, d)
  {
    if n >= 0 {
      DivModScale(n, d, k);
    } else {
      assert k * n == -(k * -n);
      DivModScale(-n, d, k);
    }
  }

  lemma AbsScale(n: int, k: nat)
    ensures Abs(k * n) == k * Abs(n)
  {
    if n < 0 {
      assert k * n == -(k * -n);
    }
  }

  /** A positive multiple of a vector has the same slope. */
  lemma SlopeScales(v: Asteroid, k: nat)
    requires k > 0
    ensures Slope(Scaled(v, k)) == Slope(v)
  {
    var w := Scaled(v, k);
    AbsScale(v.x, k);
    AbsScale(v.y, k);
    GcdScale(Abs(v.x), Abs(v.y), k);
    assert GcdOf(w) == k * GcdOf(v);
    if v == Origin {
      assert w == Origin;
    } else {
      var g := GcdOf(v);
      GcdZero(Abs(v.x), Abs(v.y));
      assert g > 0 && w != Origin;
      TruncDivScale(v.x, g, k);
      TruncDivScale(v.y, g, k);
      assert Slope(w) == (TruncDiv(k * v.x, k * g), TruncDiv(k * v.y, k * g));
    }
  }

  /** The slope of a non-zero vector is reduced: its components have
      gcd 1. */
  lemma SlopeReduced(v: Asteroid)
    requires v != Origin
    ensures Gcd(Abs(Slope(v).0), Abs(Slope(v).1)) == 1
  {
    var g, s := GcdOf(v), Slope(v);
    var a, b := Abs(s.0), Abs(s.1);
    GcdZero(Abs(v.x), Abs(v.y));
    AbsScale(s.0, g);
    AbsScale(s.1, g);
    assert Abs(v.x) == g * a && Abs(v.y) == g * b;
    GcdScale(a, b, g);
    CancelFactor(g, Gcd(a, b), 1);
  }

  lemma CancelFactor(k: int, m: int, n: int)
    requires k > 0 && k * m == k * n
    ensures m == n
  {
  }

  /** Two vectors lie on one ray from the origin: both are positive
      multiples of a common vector. */
  ghost predicate SameRay(u: Asteroid, v: Asteroid) {
    exists w: Asteroid, k: nat, l: nat :: k > 0 && l > 0 && u == Scaled(w, k) && v == Scaled(w, l)
  }

  /** Equal slopes mean exactly "same direction": this is what makes the
      number of distinct slopes the number of visible asteroids. */
  lemma SlopesMatchExactlyOnRays(u: Asteroid, v: Asteroid)
    ensures Slope(u) == Slope(v) <==> SameRay(u, v)
  {
    if SameRay(u, v) {
      var w: Asteroid, k: nat, l: nat :| k > 0 && l > 0 && u == Scaled(w, k) && v == Scaled(w, l);
      SlopeScales(w, k);
      SlopeScales(w, l);
    }
    if Slope(u) == Slope(v) {
      var s := Slope(u);
      var w := Asteroid(s.0, s.1);
      if u == Origin {
        assert v == Origin;
        assert u == Scaled(u, 1) && v == Scaled(u, 1);
      } else {
        assert u == Scaled(w, GcdOf(u)) && v == Scaled(w, GcdOf(v));
      }
    }
  }

  // ---------------------------------------------------------------------
  // Reading the grid

  /** The asteroids among the first `n` characters of row `y`. */
  function RowAsteroids(line: string, y: int, n: nat): seq<Asteroid>
    requires n <= |line|
  {
    if n == 0 then []
    else RowAsteroids(line, y, n - 1) + (if line[n - 1] == '#' then [Asteroid(n - 1, y)] else [])
  }

  /** The asteroids of the first `m` rows, row by row. */
  function GridAsteroids(lines: seq<string>, m: nat): seq<Asteroid>
    requires m <= |lines|
  {
    if m == 0 then []
    else GridAsteroids(lines, m - 1) + RowAsteroids(lines[m - 1], m - 1, |lines[m - 1]|)
  }

  predicate IsAsteroid(lines: seq<string>, a: Asteroid) {
    0 <= a.y < |lines| && 0 <= a.x < |lines[a.y]| && lines[a.y][a.x] == '#'
  }

  /** Row-major order: `y` first, then `x`. */
  predicate RowMajor(a: Asteroid, b: Asteroid) {
    a.y < b.y || (a.y == b.y && a.x < b.x)
  }

  predicate InRowMajorOrder(r: seq<Asteroid>) {
    forall i, j :: 0 <= i < j < |r| ==> RowMajor(r[i], r[j])
  }

  lemma {:induction false} RowMembers(line: string, y: int, n: nat, a: Asteroid)
    requires n <= |line|
    ensures a in RowAsteroids(line, y, n) <==> a.y == y && 0 <= a.x < n && line[a.x] == '#'
  {
    if n > 0 {
      RowMembers(line, y, n - 1, a);
    }
  }

  /** An asteroid is read exactly where the grid holds a '#'. */
  lemma {:induction false} GridMembers(lines: seq<string>, m: nat, a: Asteroid)
    requires m <= |lines|
    ensures a in GridAsteroids(lines, m) <==> a.y < m && IsAsteroid(lines, a)
  {
    if m > 0 {
      var row := RowAsteroids(lines[m - 1], m - 1, |lines[m - 1]|);
      assert GridAsteroids(lines, m) == GridAsteroids(lines, m - 1) + row;
      GridMembers(lines, m - 1, a);
      RowMembers(lines[m - 1], m - 1, |lines[m - 1]|, a);
      assert a in row <==> a.y == m - 1 && IsAsteroid(lines, a);
    }
  }

  lemma {:induction false} RowOrdered(line: string, y: int, n: nat)
    requires n <= |line|
    ensures InRowMajorOrder(RowAsteroids(line, y, n))
    ensures forall i :: 0 <= i < |RowAsteroids(line, y, n)| ==>
      RowAsteroids(line, y, n)[i].y == y && 0 <= RowAsteroids(line, y, n)[i].x < n
  {
    if n > 0 {
      RowOrdered(line, y, n - 1);
    }
  }

  lemma {:induction false} GridOrdered(lines: seq<string>, m: nat)
    requires m <= |lines|
    ensures InRowMajorOrder(GridAsteroids(lines, m))
    ensures forall i :: 0 <= i < |GridAsteroids(lines, m)| ==> 0 <= GridAsteroids(lines, m)[i].y < m
  {
    if m > 0 {
      GridOrdered(lines, m - 1);
      RowOrdered(lines[m - 1], m - 1, |lines[m - 1]|);
    }
  }

  /** Reads every '#' of the grid as an asteroid at its column and row,
      in row-major order. */
  method ReadAsteroids(lines: seq<string>) returns (asteroids: seq<Asteroid>)
    ensures asteroids == GridAsteroids(lines, |lines|)
  {
    asteroids := [];
    for y := 0 to |lines|
      invariant asteroids == GridAsteroids(lines, y)
    {
      asteroids := ReadRow(lines[y], y, asteroids);
    }
  }

  method ReadRow(line: string, y: int, before: seq<Asteroid>) returns (asteroids: seq<Asteroid>)
    ensures asteroids == before + RowAsteroids(line, y, |line|)
  {
    asteroids := before;
    for x := 0 to |line|
      invariant asteroids == before + RowAsteroids(line, y, x)
    {
      if line[x] == '#' {
        asteroids := asteroids + [Asteroid(x, y)];
      }
    }
  }

  /** The grid read back: exactly its '#' cells, strictly in row-major
      order. */
  lemma ReadAsteroidsMeaning(lines: seq<string>)
    ensures forall a :: a in GridAsteroids(lines, |lines|) <==> IsAsteroid(lines, a)
    ensures InRowMajorOrder(GridAsteroids(lines, |lines|))
  {
    forall a
      ensures a in GridAsteroids(lines, |lines|) <==> IsAsteroid(lines, a)
    {
      GridMembers(lines, |lines|, a);
    }
    GridOrdered(lines, |lines|);
  }

  // ---------------------------------------------------------------------
  // Part one

  /** The distinct slopes from every other asteroid to `a`. */
  ghost function Sights(asteroids: seq<Asteroid>, a: Asteroid): set<Direction> {
    set b | b in asteroids && b != a :: SlopeBetween(a, b)
  }

  lemma SightsGrow(asteroids: seq<Asteroid>, j: nat, a: Asteroid)
    requires j < |asteroids|
    ensures Sights(asteroids[..j + 1], a) ==
      Sights(asteroids[..j], a) + (if asteroids[j] != a then {SlopeBetween(a, asteroids[j])} else {})
  {
    assert asteroids[..j + 1] == asteroids[..j] + [asteroids[j]];
  }

  /** Counts how many distinct slopes lead from the other asteroids to
      `a`, tallying them in a map keyed by slope. */
  method CountSights(asteroids: seq<Asteroid>, a: Asteroid) returns (n: nat)
    ensures n == |Sights(asteroids, a)|
  {
    var tally: map<Direction, nat> := map[];
    for j := 0 to |asteroids|
      invariant tally.Keys == Sights(asteroids[..j], a)
    {
      SightsGrow(asteroids, j, a);
      var b := asteroids[j];
      if b != a {
        var s := SlopeBetween(a, b);
        tally := tally[s := if s in tally then tally[s] + 1 else 1];
      }
    }
    assert asteroids[..|asteroids|] == asteroids;
    n := |tally|;
  }

  /** The order on (count, asteroid) pairs: count first, then the
      asteroid. */
  predicate AtMost(p: (nat, Asteroid), q: (nat, Asteroid)) {
    p.0 < q.0 || (p.0 == q.0 && (p.1 == q.1 || Below(p.1, q.1)))
  }

  /** `best` is the greatest (count, asteroid) pair over all asteroids. */
  ghost predicate IsBest(asteroids: seq<Asteroid>, best: (nat, Asteroid)) {
    && best.1 in asteroids
    && best.0 == |Sights(asteroids, best.1)|
    && forall a :: a in asteroids ==> AtMost((|Sights(asteroids, a)|, a), best)
  }

  /** At most one pair is the greatest. */
  lemma BestIsUnique(asteroids: seq<Asteroid>, p: (nat, Asteroid), q: (nat, Asteroid))
    requires IsBest(asteroids, p) && IsBest(asteroids, q)
    ensures p == q
  {
    assert AtMost(p, q) && AtMost(q, p);
  }

  /** Scores every asteroid by its distinct slopes and returns the
      greatest (count, asteroid) pair, or an error when there are no
      asteroids. */
  method PartOne(asteroids: seq<Asteroid>) returns (r: Result<(nat, Asteroid), string>)
    ensures r.Err? <==> |asteroids| == 0
    ensures r.Err? ==> r.error == "didn't find answer"
    ensures r.Ok? ==> IsBest(asteroids, r.value)
  {
    var answers: map<Asteroid, nat> := map[];
    for i := 0 to |asteroids|
      invariant forall a :: a in answers <==> a in asteroids[..i]
      invariant forall a :: a in answers ==> answers[a] == |Sights(asteroids, a)|
    {
      var n := CountSights(asteroids, asteroids[i]);
      answers := answers[asteroids[i] := n];
    }
    assert asteroids[..|asteroids|] == asteroids;
    assert |asteroids| > 0 ==> asteroids[0] in answers;
    if |answers| == 0 {
      return Err("didn't find answer");
    }
    var best := Greatest(answers);
    r := Ok(best);
  }

  /** The greatest (value, key) pair of a non-empty map. */
  method Greatest(answers: map<Asteroid, nat>) returns (best: (nat, Asteroid))
    requires |answers| > 0
    ensures best.1 in answers && best.0 == answers[best.1]
    ensures forall a :: a in answers ==> AtMost((answers[a], a), best)
  {
    var first :| first in answers;
    best := (answers[first], first);
    var todo := answers.Keys - {first};
    while todo != {}
      invariant todo <= answers.Keys
      invariant best.1 in answers && best.0 == answers[best.1]
      invariant forall a :: a in answers && a !in todo ==> AtMost((answers[a], a), best)
      decreases |todo|
    {
      var a :| a in todo;
      if AtMost(best, (answers[a], a)) {
        best := (answers[a], a);
      }
      todo := todo - {a};
    }
  }
}
