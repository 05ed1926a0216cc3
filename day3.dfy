/** Day 3 (day_3/src/main.rs): two wires are laid out on a grid from a
    common origin, one instruction (`R8`, `U5`, ...) at a time, and the
    closest crossing is reported.

    `PartOne` records each straight run of the first wire as a segment,
    keyed by its row or column, and checks each run of a later wire
    against the segments it crosses; the cost of a crossing is its
    Manhattan distance from the origin. `PartTwo` walks the wires cell by
    cell: the first wire stores the step count at which each cell was
    first reached, and a later wire records a crossing whenever it enters
    a stored cell, costing both wires' step counts. */
module Day3 {
  import opened Common
  import opened Text

  /** Whether the first wire is being recorded or a later one checked. */
  datatype Mode = Input | Intersections

  type Point = (int, int)

  /** A straight run along a row or column: its smaller and larger end. */
  type Segment = (int, int)

  /** A recorded crossing: x, y and its cost. */
  type Hit = (int, int, int)

  predicate AtOrigin(h: Hit) { h.0 == 0 && h.1 == 0 }

  // ---------------------------------------------------------------------
  // Part one: segments

  /** The segments recorded under `k`; a missing key has none. */
  function Entries(lines: map<int, seq<Segment>>, k: int): seq<Segment> {
    if k in lines then lines[k] else []
  }

  /** `horiz` / `vert` (`entry(k).or_insert_with(Vec::new).push(seg)`):
      the segment is appended under `k`, and no other key changes. */
  function Recorded(lines: map<int, seq<Segment>>, k: int, seg: Segment): (r: map<int, seq<Segment>>)
    ensures r.Keys == lines.Keys + {k}
    ensures Entries(r, k) == Entries(lines, k) + [seg]
    ensures forall j :: j != k ==> Entries(r, j) == Entries(lines, j)
  {
    lines[k := Entries(lines, k) + [seg]]
  }

  predicate Contains(seg: Segment, coord: int) { seg.0 <= coord <= seg.1 }

  /** `scan_for_intersections`: the segments of `list` containing
      `coord`, in their order in `list`. */
  function ScanForIntersections(list: seq<Segment>, coord: int): (r: seq<Segment>)
    ensures |r| <= |list|
    ensures forall seg :: seg in r <==> seg in list && Contains(seg, coord)
  {
    if list == [] then []
    else if Contains(list[0], coord) then [list[0]] + ScanForIntersections(list[1..], coord)
    else ScanForIntersections(list[1..], coord)
  }

  /** `push_to_intersections`: the hit is appended unless it lies at the
      origin, where both wires start. */
  function PushedHit(hits: seq<Hit>, h: Hit): (r: seq<Hit>)
    ensures |hits| <= |r| <= |hits| + 1 && r[..|hits|] == hits
    ensures forall g :: g in r <==> g in hits || (g == h && !AtOrigin(h))
  {
    if !AtOrigin(h) then hits + [h] else hits
  }

  /** The crossing a run checks at line `k`: on a vertical run at column
      `at` the hit is at (at, k), on a horizontal run at row `at` it is at
      (k, at); it costs its distance from the origin. */
  function HitFor(vertical: bool, at: int, k: int): (h: Hit)
    ensures h.2 == Abs(h.0) + Abs(h.1)
    ensures vertical ==> h.0 == at && h.1 == k
    ensures !vertical ==> h.0 == k && h.1 == at
  {
    if vertical then (at, k, Abs(at) + Abs(k)) else (k, at, Abs(k) + Abs(at))
  }

  /** Some segment recorded under `k` contains `at`. */
  predicate Crosses(lines: map<int, seq<Segment>>, k: int, at: int) {
    k in lines && exists seg :: seg in lines[k] && Contains(seg, at)
  }

  /** The hits a run checking lines `lo..hi` at `at` appends to `base`. */
  function Crossings(base: seq<Hit>, lines: map<int, seq<Segment>>, at: int, lo: int, hi: int, vertical: bool): (r: seq<Hit>)
    ensures |base| <= |r| && r[..|base|] == base
    ensures forall i :: |base| <= i < |r| ==> !AtOrigin(r[i]) && r[i].2 == Abs(r[i].0) + Abs(r[i].1)
    decreases hi - lo
  {
    if hi <= lo then base
    else
      var before := Crossings(base, lines, at, lo, hi - 1, vertical);
      if hi - 1 in lines && |ScanForIntersections(lines[hi - 1], at)| > 0 then PushedHit(before, HitFor(vertical, at, hi - 1))
      else before
  }

  /** `scan_for_intersections` finds a segment exactly when one of the
      line's segments contains the coordinate. */
  lemma ScanFinds(lines: map<int, seq<Segment>>, k: int, at: int)
    ensures (k in lines && |ScanForIntersections(lines[k], at)| > 0) <==> Crosses(lines, k, at)
  {
    if k in lines {
      var found := ScanForIntersections(lines[k], at);
      if Crosses(lines, k, at) {
        var seg :| seg in lines[k] && Contains(seg, at);
        assert seg in found;
      }
      if |found| > 0 {
        assert found[0] in found;
      }
    }
  }

  /** `h` is the hit of some line of `lo..hi` that crosses `at`, and is
      not the origin. */
  predicate Found(lines: map<int, seq<Segment>>, at: int, lo: int, hi: int, vertical: bool, h: Hit) {
    exists k :: lo <= k < hi && h == HitFor(vertical, at, k) && Crosses(lines, k, at) && !AtOrigin(h)
  }

  /** A run records exactly one hit for each line `k` in `lo..hi` whose
      segments contain `at`, unless that hit is the origin. */
  lemma CrossingsExactly(base: seq<Hit>, lines: map<int, seq<Segment>>, at: int, lo: int, hi: int, vertical: bool)
    ensures var r := Crossings(base, lines, at, lo, hi, vertical);
      forall h :: h in r[|base|..] <==> Found(lines, at, lo, hi, vertical, h)
  {
    CrossingsSound(base, lines, at, lo, hi, vertical);
    CrossingsComplete(base, lines, at, lo, hi, vertical);
  }

  /** Every hit a run records is the hit of a crossing line. */
  lemma {:induction false} CrossingsSound(base: seq<Hit>, lines: map<int, seq<Segment>>, at: int, lo: int, hi: int, vertical: bool)
    ensures var r := Crossings(base, lines, at, lo, hi, vertical);
      forall h :: h in r[|base|..] ==> Found(lines, at, lo, hi, vertical, h)
    decreases hi - lo
  {
    var r := Crossings(base, lines, at, lo, hi, vertical);
    if hi <= lo {
      assert r[|base|..] == [];
    } else {
      var before := Crossings(base, lines, at, lo, hi - 1, vertical);
      CrossingsSound(base, lines, at, lo, hi - 1, vertical);
      CrossingsGrow(base, lines, at, lo, hi, vertical);
      forall g | g in before[|base|..]
        ensures Found(lines, at, lo, hi, vertical, g)
      {
        var k :| lo <= k < hi - 1 && g == HitFor(vertical, at, k) && Crosses(lines, k, at) && !AtOrigin(g);
      }
    }
  }

  /** Every crossing line off the origin has its hit recorded. */
  lemma {:induction false} CrossingsComplete(base: seq<Hit>, lines: map<int, seq<Segment>>, at: int, lo: int, hi: int, vertical: bool)
    ensures var r := Crossings(base, lines, at, lo, hi, vertical);
      forall h :: Found(lines, at, lo, hi, vertical, h) ==> h in r[|base|..]
    decreases hi - lo
  {
    if lo < hi {
      var r := Crossings(base, lines, at, lo, hi, vertical);
      var before := Crossings(base, lines, at, lo, hi - 1, vertical);
      CrossingsComplete(base, lines, at, lo, hi - 1, vertical);
      CrossingsGrow(base, lines, at, lo, hi, vertical);
      forall g | Found(lines, at, lo, hi, vertical, g)
        ensures g in r[|base|..]
      {
        var k :| lo <= k < hi && g == HitFor(vertical, at, k) && Crosses(lines, k, at) && !AtOrigin(g);
        if k < hi - 1 {
          assert Found(lines, at, lo, hi - 1, vertical, g);
          assert g in before[|base|..];
        } else {
          assert r[|base|..] == before[|base|..] + [g];
        }
      }
    }
  }

  /** Checking one more line appends its hit exactly when it crosses and
      is not the origin. */
  lemma CrossingsGrow(base: seq<Hit>, lines: map<int, seq<Segment>>, at: int, lo: int, hi: int, vertical: bool)
    requires lo < hi
    ensures var h := HitFor(vertical, at, hi - 1);
      Crossings(base, lines, at, lo, hi, vertical)[|base|..]
        == Crossings(base, lines, at, lo, hi - 1, vertical)[|base|..] + (if Crosses(lines, hi - 1, at) && !AtOrigin(h) then [h] else [])
  {
    var before := Crossings(base, lines, at, lo, hi - 1, vertical);
    var h := HitFor(vertical, at, hi - 1);
    ScanFinds(lines, hi - 1, at);
    var added := if Crosses(lines, hi - 1, at) && !AtOrigin(h) then [h] else [];
    assert Crossings(base, lines, at, lo, hi, vertical) == before + added;
    assert (before + added)[|base|..] == before[|base|..] + added;
  }

  /** The order `sort` puts segments in: by start, then by end. */
  predicate SegmentLe(a: Segment, b: Segment) {
    a.0 < b.0 || (a.0 == b.0 && a.1 <= b.1)
  }

  predicate SortedSegments(xs: seq<Segment>) {
    forall i, j :: 0 <= i < j < |xs| ==> SegmentLe(xs[i], xs[j])
  }

  /** `seg` placed before the first segment it does not follow. */
  function Insert(seg: Segment, xs: seq<Segment>): (r: seq<Segment>)
    ensures multiset(r) == multiset(xs) + multiset{seg}
  {
    if xs == [] then [seg]
    else if SegmentLe(seg, xs[0]) then [seg] + xs
    else
      assert xs == [xs[0]] + xs[1..];
      [xs[0]] + Insert(seg, xs[1..])
  }

  lemma {:induction false} InsertSorted(seg: Segment, xs: seq<Segment>)
    requires SortedSegments(xs)
    ensures SortedSegments(Insert(seg, xs))
  {
    if xs != [] && !SegmentLe(seg, xs[0]) {
      var rest := Insert(seg, xs[1..]);
      assert SortedSegments(xs[1..]) by {
        forall i, j | 0 <= i < j < |xs[1..]| ensures SegmentLe(xs[1..][i], xs[1..][j]) {
          assert xs[1..][i] == xs[i + 1] && xs[1..][j] == xs[j + 1];
        }
      }
      InsertSorted(seg, xs[1..]);
      forall j | 0 <= j < |rest|
        ensures SegmentLe(xs[0], rest[j])
      {
        assert rest[j] in multiset(rest);
        if rest[j] != seg {
          assert rest[j] in multiset(xs[1..]);
          var k :| 0 <= k < |xs[1..]| && xs[1..][k] == rest[j];
          assert xs[1..][k] == xs[k + 1];
        }
      }
      var r := [xs[0]] + rest;
      forall i, j | 0 <= i < j < |r|
        ensures SegmentLe(r[i], r[j])
      {
        if i > 0 {
          assert r[i] == rest[i - 1] && r[j] == rest[j - 1];
        } else {
          assert r[j] == rest[j - 1];
        }
      }
    }
  }

  /** `Vec::sort` on a list of segments: the same segments, in order. */
  function SortSegments(xs: seq<Segment>): (r: seq<Segment>)
    ensures SortedSegments(r) && multiset(r) == multiset(xs)
  {
    if xs == [] then []
    else
      assert xs == [xs[0]] + xs[1..];
      InsertSorted(xs[0], SortSegments(xs[1..]));
      Insert(xs[0], SortSegments(xs[1..]))
  }

  /** Every list of a segment map sorted. */
  function SortedLines(lines: map<int, seq<Segment>>): (r: map<int, seq<Segment>>)
    ensures r.Keys == lines.Keys
    ensures forall k :: k in lines ==> r[k] == SortSegments(lines[k])
  {
    map k | k in lines :: SortSegments(lines[k])
  }

  /** Sorting the lists changes no crossing: the same segments are there. */
  lemma SortingKeepsCrossings(lines: map<int, seq<Segment>>, k: int, at: int)
    ensures Crosses(SortedLines(lines), k, at) <==> Crosses(lines, k, at)
  {
    if k in lines {
      var sorted := SortedLines(lines)[k];
      assert forall seg :: seg in sorted <==> seg in lines[k] by {
        forall seg ensures seg in sorted <==> seg in lines[k] {
          assert seg in sorted <==> seg in multiset(sorted);
          assert seg in lines[k] <==> seg in multiset(lines[k]);
        }
      }
    }
  }

  /** The values of `PartOne`. */
  datatype PartOneState = PartOneState(
    horizontal: map<int, seq<Segment>>,
    vertical: map<int, seq<Segment>>,
    intersections: seq<Hit>,
    position: Point,
    mode: Mode)

  const PartOneStart := PartOneState(map[], map[], [], (0, 0), Input)

  /** `set(dx, dy)` for a move along one axis: the position moves by the
      delta; while the first wire is recorded the run is stored as a
      segment under its column (vertical runs, including empty ones) or
      its row; afterwards every line the run passes, from the smaller
      coordinate up to but not including the larger, is checked for a
      crossing at the run's starting column or row. */
  function SetSpec(s: PartOneState, dx: int, dy: int): (r: PartOneState)
    requires dx == 0 || dy == 0
    ensures r.position == (s.position.0 + dx, s.position.1 + dy) && r.mode == s.mode
    ensures s.mode == Input ==> r.intersections == s.intersections
    ensures s.mode == Intersections ==> r.horizontal == s.horizontal && r.vertical == s.vertical
    ensures |s.intersections| <= |r.intersections| && r.intersections[..|s.intersections|] == s.intersections
  {
    var (x, y) := s.position;
    var (nx, ny) := (x + dx, y + dy);
    var moved := s.(position := (nx, ny));
    match s.mode
    case Input =>
      if dx == 0 then moved.(vertical := Recorded(s.vertical, x, (Min(y, ny), Max(y, ny))))
      else moved.(horizontal := Recorded(s.horizontal, y, (Min(x, nx), Max(x, nx))))
    case Intersections =>
      if dx == 0 then moved.(intersections := Crossings(s.intersections, s.horizontal, x, Min(y, ny), Max(y, ny), true))
      else moved.(intersections := Crossings(s.intersections, s.vertical, y, Min(x, nx), Max(x, nx), false))
  }

  /** Every hit is off the origin and costs its distance from it. */
  predicate Recordable(hits: seq<Hit>) {
    forall i :: 0 <= i < |hits| ==> !AtOrigin(hits[i]) && hits[i].2 == Abs(hits[i].0) + Abs(hits[i].1)
  }

  /** `set` never records the origin, and every hit it records costs its
      Manhattan distance. */
  lemma SetKeepsRecordable(s: PartOneState, dx: int, dy: int)
    requires dx == 0 || dy == 0
    requires Recordable(s.intersections)
    ensures Recordable(SetSpec(s, dx, dy).intersections)
  {
    var r := SetSpec(s, dx, dy).intersections;
    forall i | 0 <= i < |r|
      ensures !AtOrigin(r[i]) && r[i].2 == Abs(r[i].0) + Abs(r[i].1)
    {
      if i < |s.intersections| {
        assert r[i] == r[..|s.intersections|][i];
      }
    }
  }

  /** A run of the first wire is stored exactly once, under its column
      when vertical and under its row when horizontal, spanning its two
      ends; nothing else is stored. */
  lemma SetRecordsRun(s: PartOneState, dx: int, dy: int)
    requires dx == 0 || dy == 0
    requires s.mode == Input
    ensures var r := SetSpec(s, dx, dy);
      var (x, y) := s.position;
      if dx == 0 then
        Entries(r.vertical, x) == Entries(s.vertical, x) + [(Min(y, y + dy), Max(y, y + dy))]
        && (forall j :: j != x ==> Entries(r.vertical, j) == Entries(s.vertical, j))
        && r.horizontal == s.horizontal
      else
        Entries(r.horizontal, y) == Entries(s.horizontal, y) + [(Min(x, x + dx), Max(x, x + dx))]
        && (forall j :: j != y ==> Entries(r.horizontal, j) == Entries(s.horizontal, j))
        && r.vertical == s.vertical
  {
  }

  /** `line`: checking mode, every segment list sorted, back at the
      origin; the recorded hits stay. */
  function LineOneSpec(s: PartOneState): (r: PartOneState)
    ensures r.mode == Intersections && r.position == (0, 0) && r.intersections == s.intersections
    ensures r.horizontal.Keys == s.horizontal.Keys && r.vertical.Keys == s.vertical.Keys
  {
    PartOneState(SortedLines(s.horizontal), SortedLines(s.vertical), s.intersections, (0, 0), Intersections)
  }

  /** Sorting in `line` does not change what a later run finds. */
  lemma {:induction false} LineKeepsCrossings(base: seq<Hit>, lines: map<int, seq<Segment>>, at: int, lo: int, hi: int, vertical: bool)
    ensures Crossings(base, SortedLines(lines), at, lo, hi, vertical) == Crossings(base, lines, at, lo, hi, vertical)
    decreases hi - lo
  {
    if lo < hi {
      LineKeepsCrossings(base, lines, at, lo, hi - 1, vertical);
      var k := hi - 1;
      SortingKeepsCrossings(lines, k, at);
      ScanFinds(SortedLines(lines), k, at);
      ScanFinds(lines, k, at);
    }
  }

  /** The sorting loops of `line`. */
  method SortAll(lines: map<int, seq<Segment>>) returns (r: map<int, seq<Segment>>)
    ensures r == SortedLines(lines)
  {
    r := UpdateEach(lines, SortSegments);
    var sorted := SortedLines(lines);
    assert r.Keys == sorted.Keys;
    assert forall k :: k in r ==> r[k] == sorted[k];
  }

  class PartOne {
    var horizontal: map<int, seq<Segment>>
    var vertical: map<int, seq<Segment>>
    var intersections: seq<Hit>
    var position: Point
    var mode: Mode

    function State(): PartOneState
      reads this
    {
      PartOneState(horizontal, vertical, intersections, position, mode)
    }

    /** `PartOne::new`: nothing recorded, at the origin, recording. */
    constructor New()
      ensures State() == PartOneStart
    {
      horizontal := map[];
      vertical := map[];
      intersections := [];
      position := (0, 0);
      mode := Input;
    }

    /** `horiz`. */
    method Horiz(y: int, start: int, end: int)
      modifies this
      ensures State() == old(State()).(horizontal := Recorded(old(horizontal), y, (start, end)))
    {
      horizontal := horizontal[y := Entries(horizontal, y) + [(start, end)]];
    }

    /** `vert`. */
    method Vert(x: int, start: int, end: int)
      modifies this
      ensures State() == old(State()).(vertical := Recorded(old(vertical), x, (start, end)))
    {
      vertical := vertical[x := Entries(vertical, x) + [(start, end)]];
    }

    /** `set`. A diagonal move panics in the source; no caller makes one,
        so it is a precondition here. */
    method Set(dx: int, dy: int)
      requires dx == 0 || dy == 0
      modifies this
      ensures State() == SetSpec(old(State()), dx, dy)
    {
      var x, y := position.0, position.1;
      position := (x + dx, y + dy);
      var xMin, xMax, yMin, yMax := Min(x, position.0), Max(x, position.0), Min(y, position.1), Max(y, position.1);
      match mode {
        case Input =>
          if dx == 0 {
            Vert(x, yMin, yMax);
          } else {
            Horiz(y, xMin, xMax);
          }
        case Intersections =>
          if dx == 0 {
            Check(horizontal, x, yMin, yMax, true);
          } else {
            Check(vertical, y, xMin, xMax, false);
          }
      }
    }

    /** The loop of `set` in checking mode: each line `k` of `lo..hi` in
        `lines` whose segments contain `at` adds its hit. */
    method Check(lines: map<int, seq<Segment>>, at: int, lo: int, hi: int, vertical: bool)
      modifies this
      ensures State() == old(State()).(intersections := Crossings(old(intersections), lines, at, lo, hi, vertical))
    {
      var k := lo;
      while k < hi
        invariant lo <= k && (k <= hi || k == lo)
        invariant State() == old(State()).(intersections := Crossings(old(intersections), lines, at, lo, k, vertical))
      {
        if k in lines && |ScanForIntersections(lines[k], at)| > 0 {
          intersections := PushedHit(intersections, HitFor(vertical, at, k));
        }
        k := k + 1;
      }
    }

    /** `left(n)`: `set(-n, 0)`. */
    method Left(spaces: int)
      modifies this
      ensures State() == SetSpec(old(State()), -spaces, 0)
    {
      Set(-spaces, 0);
    }

    /** `right(n)`: `set(n, 0)`. */
    method Right(spaces: int)
      modifies this
      ensures State() == SetSpec(old(State()), spaces, 0)
    {
      Set(spaces, 0);
    }

    /** `up(n)`: `set(0, n)`. */
    method Up(spaces: int)
      modifies this
      ensures State() == SetSpec(old(State()), 0, spaces)
    {
      Set(0, spaces);
    }

    /** `down(n)`: `set(0, -n)`. */
    method Down(spaces: int)
      modifies this
      ensures State() == SetSpec(old(State()), 0, -spaces)
    {
      Set(0, -spaces);
    }

    /** `line`. */
    method Line()
      modifies this
      ensures State() == LineOneSpec(old(State()))
    {
      mode := Intersections;
      horizontal := SortAll(horizontal);
      vertical := SortAll(vertical);
      position := (0, 0);
    }

    /** `into_answer`. */
    function IntoAnswer(): (r: seq<Hit>)
      reads this
      ensures r == State().intersections
    {
      intersections
    }
  }

  // ---------------------------------------------------------------------
  // Part two: cells

  /** The values of `PartTwo`. */
  datatype PartTwoState = PartTwoState(
    cells: map<Point, int>,
    intersections: seq<Hit>,
    cost: int,
    position: Point,
    mode: Mode)

  const PartTwoStart := PartTwoState(map[], [], 0, (0, 0), Input)

  /** `mark` (which first calls `step`): the cost goes up by one. While the
      first wire is recorded a cell keeps the cost of its first visit; on
      a later wire, entering a stored cell records a hit at the cell
      costing the stored cost plus the current one. */
  function Marked(s: PartTwoState): (r: PartTwoState)
    ensures r.cost == s.cost + 1 && r.position == s.position && r.mode == s.mode
  {
    var stepped := s.(cost := s.cost + 1);
    match s.mode
    case Input =>
      if s.position in s.cells then stepped
      else stepped.(cells := s.cells[s.position := stepped.cost])
    case Intersections =>
      if s.position in s.cells then
        stepped.(intersections := s.intersections + [(s.position.0, s.position.1, s.cells[s.position] + stepped.cost)])
      else stepped
  }

  /** On the first wire a `mark` stores the current cell at the new step
      count unless it is already stored, keeps every stored cost, and
      records no hit. */
  lemma MarkKeepsFirstVisit(s: PartTwoState)
    requires s.mode == Input
    ensures var r := Marked(s);
      && r.intersections == s.intersections
      && r.cells.Keys == s.cells.Keys + {s.position}
      && (forall p :: p in s.cells ==> r.cells[p] == s.cells[p])
      && (s.position !in s.cells ==> r.cells[s.position] == s.cost + 1)
  {
  }

  /** On a later wire a `mark` changes no stored cell, and records a hit
      exactly when the current cell is stored, costing the stored cost
      plus the new step count. */
  lemma MarkRecordsCrossing(s: PartTwoState)
    requires s.mode == Intersections
    ensures var r := Marked(s);
      && r.cells == s.cells
      && (s.position in s.cells ==>
            r.intersections == s.intersections + [(s.position.0, s.position.1, s.cells[s.position] + s.cost + 1)])
      && (s.position !in s.cells ==> r.intersections == s.intersections)
  {
  }

  /** The cell next to `p` along `d`. */
  function Next(p: Point, d: Point): Point {
    (p.0 + d.0, p.1 + d.1)
  }

  /** One turn of the loop of a move: one cell along `d`, then `mark`. */
  function Advanced(s: PartTwoState, d: Point): PartTwoState {
    Marked(s.(position := Next(s.position, d)))
  }

  /** A move of `n` cells along the unit step `d`; nothing happens when
      `n` is not positive. */
  function Walked(s: PartTwoState, d: Point, n: int): PartTwoState
    decreases if n <= 0 then 0 else n
  {
    if n <= 0 then s else Advanced(Walked(s, d, n - 1), d)
  }

  /** The cell `i` steps along `d` from `p`. */
  function Along(p: Point, d: Point, i: nat): Point {
    if i == 0 then p else Next(Along(p, d, i - 1), d)
  }

  /** Walking `i` cells along `d` moves by `i` times `d`. */
  lemma {:induction false} AlongIsScaled(p: Point, d: Point, i: nat)
    ensures Along(p, d, i) == (p.0 + i * d.0, p.1 + i * d.1)
  {
    if i > 0 {
      AlongIsScaled(p, d, i - 1);
      assert i * d.0 == (i - 1) * d.0 + d.0 && i * d.1 == (i - 1) * d.1 + d.1;
    }
  }

  /** A move of `n > 0` cells ends `n` cells along `d` with the cost up by
      `n` and the mode unchanged; a move of `n <= 0` cells changes
      nothing. */
  lemma {:induction false} WalkedMoves(s: PartTwoState, d: Point, n: int)
    ensures n <= 0 ==> Walked(s, d, n) == s
    ensures n > 0 ==>
      && Walked(s, d, n).position == Along(s.position, d, n)
      && Walked(s, d, n).cost == s.cost + n
      && Walked(s, d, n).mode == s.mode
    decreases if n <= 0 then 0 else n
  {
    if n > 0 {
      WalkedMoves(s, d, n - 1);
    }
  }

  /** While the first wire is recorded, a move keeps every stored cost
      and records no hit. */
  lemma {:induction false} WalkedKeepsCosts(s: PartTwoState, d: Point, n: int)
    requires s.mode == Input
    ensures var r := Walked(s, d, n);
      && r.intersections == s.intersections
      && r.mode == Input
      && (forall p :: p in s.cells ==> p in r.cells && r.cells[p] == s.cells[p])
    decreases if n <= 0 then 0 else n
  {
    if n > 0 {
      WalkedKeepsCosts(s, d, n - 1);
      AdvanceStores(Walked(s, d, n - 1), d);
    }
  }

  /** While the first wire is recorded, every cell a move enters ends up
      stored. */
  lemma {:induction false} WalkedStoresVisits(s: PartTwoState, d: Point, n: int, i: nat)
    requires s.mode == Input
    requires 1 <= i <= n
    ensures Along(s.position, d, i) in Walked(s, d, n).cells
    decreases n
  {
    var before := Walked(s, d, n - 1);
    WalkedKeepsCosts(s, d, n - 1);
    AdvanceStores(before, d);
    if i < n {
      WalkedStoresVisits(s, d, n - 1, i);
    } else {
      WalkedMoves(s, d, n - 1);
      assert Along(s.position, d, i) == Next(before.position, d);
    }
  }

  /** One turn of a move on the first wire stores the cell it enters. */
  lemma AdvanceStores(b: PartTwoState, d: Point)
    requires b.mode == Input
    ensures var r := Advanced(b, d);
      && r.cells.Keys == b.cells.Keys + {Next(b.position, d)}
      && r.intersections == b.intersections
      && r.mode == Input
      && (forall p :: p in b.cells ==> p in r.cells && r.cells[p] == b.cells[p])
      && Next(b.position, d) in r.cells
  {
    MarkKeepsFirstVisit(b.(position := Next(b.position, d)));
  }

  /** On a later wire a move leaves the stored cells alone, keeps the
      hits recorded before it, and ends with the cost up by the cells it
      walked. */
  lemma {:induction false} WalkedKeepsCells(s: PartTwoState, d: Point, n: int)
    requires s.mode == Intersections
    ensures var r := Walked(s, d, n);
      && r.cells == s.cells
      && r.mode == Intersections
      && |s.intersections| <= |r.intersections|
      && (forall i :: 0 <= i < |s.intersections| ==> r.intersections[i] == s.intersections[i])
    decreases if n <= 0 then 0 else n
  {
    if n > 0 {
      WalkedKeepsCells(s, d, n - 1);
      AdvanceRecords(Walked(s, d, n - 1), d);
    }
  }

  /** Each hit recorded since `s` lies on a cell stored in `s` and costs
      that cell's stored cost plus more than `s.cost` and at most
      `s.cost + n`. */
  ghost predicate HitsWithin(s: PartTwoState, b: PartTwoState, n: int)
    requires |s.intersections| <= |b.intersections|
  {
    forall i :: |s.intersections| <= i < |b.intersections| ==>
      var h := b.intersections[i];
      (h.0, h.1) in s.cells && s.cost < h.2 - s.cells[(h.0, h.1)] <= s.cost + n
  }

  /** On a later wire each hit a move records lies on a stored cell and
      costs that cell's stored cost plus a step count the move reached. */
  lemma {:induction false} WalkedRecordsCrossings(s: PartTwoState, d: Point, n: int)
    requires s.mode == Intersections
    ensures |s.intersections| <= |Walked(s, d, n).intersections|
    ensures HitsWithin(s, Walked(s, d, n), n)
    decreases if n <= 0 then 0 else n
  {
    WalkedKeepsCells(s, d, n);
    if n > 0 {
      var before := Walked(s, d, n - 1);
      WalkedRecordsCrossings(s, d, n - 1);
      WalkedKeepsCells(s, d, n - 1);
      WalkedMoves(s, d, n - 1);
      assert before.cost == s.cost + n - 1;
      AdvanceRecordsFrom(s, before, d, n);
    }
  }

  /** The step of `WalkedRecordsCrossings`: one more turn keeps every hit
      recorded since `s` within the costs the move has reached. */
  lemma AdvanceRecordsFrom(s: PartTwoState, b: PartTwoState, d: Point, n: int)
    requires n > 0 && b.mode == Intersections && b.cells == s.cells && b.cost == s.cost + n - 1
    requires |s.intersections| <= |b.intersections| && HitsWithin(s, b, n - 1)
    ensures |s.intersections| <= |Advanced(b, d).intersections|
    ensures HitsWithin(s, Advanced(b, d), n)
  {
    var r := Advanced(b, d);
    AdvanceRecords(b, d);
    forall i | |s.intersections| <= i < |r.intersections|
      ensures var h := r.intersections[i];
        (h.0, h.1) in s.cells && s.cost < h.2 - s.cells[(h.0, h.1)] <= s.cost + n
    {
      if i < |b.intersections| {
        assert r.intersections[i] == b.intersections[i];
      }
    }
  }

  /** One turn of a move on a later wire keeps the stored cells and
      appends at most one hit, at a stored cell, costing the stored cost
      plus the new step count. */
  lemma AdvanceRecords(b: PartTwoState, d: Point)
    requires b.mode == Intersections
    ensures var r := Advanced(b, d);
      && r.cells == b.cells
      && r.mode == Intersections
      && |b.intersections| <= |r.intersections| <= |b.intersections| + 1
      && (forall i :: 0 <= i < |b.intersections| ==> r.intersections[i] == b.intersections[i])
      && forall i :: |b.intersections| <= i < |r.intersections| ==>
           var h := r.intersections[i];
           (h.0, h.1) in b.cells && h.2 - b.cells[(h.0, h.1)] == b.cost + 1
  {
    var r := Advanced(b, d);
    MarkRecordsCrossing(b.(position := Next(b.position, d)));
  }

  /** `line`: back at the origin with the cost reset, checking mode; the
      stored cells and recorded hits stay. */
  function LineTwoSpec(s: PartTwoState): (r: PartTwoState)
    ensures r.cells == s.cells && r.intersections == s.intersections
    ensures r.position == (0, 0) && r.cost == 0 && r.mode == Intersections
  {
    s.(position := (0, 0), cost := 0, mode := Intersections)
  }

  class PartTwo {
    var cells: map<Point, int>
    var intersections: seq<Hit>
    var cost: int
    var position: Point
    var mode: Mode

    function State(): PartTwoState
      reads this
    {
      PartTwoState(cells, intersections, cost, position, mode)
    }

    /** `PartTwo::new`. */
    constructor New()
      ensures State() == PartTwoStart
    {
      cells := map[];
      cost := 0;
      position := (0, 0);
      intersections := [];
      mode := Input;
    }

    /** `mark`. */
    method Mark()
      modifies this
      ensures State() == Marked(old(State()))
    {
      Step();
      match mode {
        case Input =>
          if position !in cells {
            cells := cells[position := cost];
          }
        case Intersections =>
          if position in cells {
            intersections := intersections + [(position.0, position.1, cells[position] + cost)];
          }
      }
    }

    /** `step`. */
    method Step()
      modifies this
      ensures State() == old(State()).(cost := old(cost) + 1)
    {
      cost := cost + 1;
    }

    /** The loop shared by `left`, `right`, `up` and `down`: one cell along
        `d` and a `mark`, `amount` times. */
    method Walk(d: Point, amount: int)
      modifies this
      ensures State() == Walked(old(State()), d, amount)
    {
      var left := amount;
      while left > 0
        invariant (amount <= 0 && left == amount) || 0 <= left <= amount
        invariant State() == Walked(old(State()), d, amount - left)
      {
        ghost var before := State();
        left := left - 1;
        position := (position.0 + d.0, position.1 + d.1);
        assert State() == before.(position := Next(before.position, d));
        Mark();
        assert State() == Advanced(before, d);
        assert Walked(old(State()), d, amount - left) == Advanced(before, d);
      }
    }

    /** `left`. */
    method Left(amount: int)
      modifies this
      ensures State() == Walked(old(State()), (-1, 0), amount)
    {
      Walk((-1, 0), amount);
    }

    /** `right`. */
    method Right(amount: int)
      modifies this
      ensures State() == Walked(old(State()), (1, 0), amount)
    {
      Walk((1, 0), amount);
    }

    /** `up`. */
    method Up(amount: int)
      modifies this
      ensures State() == Walked(old(State()), (0, 1), amount)
    {
      Walk((0, 1), amount);
    }

    /** `down`. */
    method Down(amount: int)
      modifies this
      ensures State() == Walked(old(State()), (0, -1), amount)
    {
      Walk((0, -1), amount);
    }

    /** `line`. */
    method Line()
      modifies this
      ensures State() == LineTwoSpec(old(State()))
    {
      position := (0, 0);
      cost := 0;
      mode := Intersections;
    }

    /** `into_answer`. */
    function IntoAnswer(): (r: seq<Hit>)
      reads this
      ensures r == State().intersections
    {
      intersections
    }
  }

  // ---------------------------------------------------------------------
  // The driver

  datatype Direction = Right | Left | Down | Up

  /** One instruction: a direction letter and an `i32` amount. */
  datatype Move = Move(direction: Direction, amount: int)

  /** Why `run` gives no answer. `EmptyInstruction` (`split_at(1)` on an
      empty instruction) and `UnknownDirection` are panics in the source;
      the other two are returned errors. */
  datatype RunError = NoAnswer | BadAmount(text: string) | EmptyInstruction | UnknownDirection(letter: char)

  function Letter(d: Direction): char {
    match d
    case Right => 'R'
    case Left => 'L'
    case Down => 'D'
    case Up => 'U'
  }

  /** The direction a letter names, if any. */
  function DirectionOf(c: char): (r: Option<Direction>)
    ensures r.Some? ==> Letter(r.value) == c
    ensures forall d :: Letter(d) == c ==> r == Some(d)
  {
    match c
    case 'R' => Some(Right)
    case 'L' => Some(Left)
    case 'D' => Some(Down)
    case 'U' => Some(Up)
    case _ => None
  }

  /** One instruction of `run`: the first character is split off, the rest
      parsed as an `i32` (an error is returned before the direction is
      looked at), then the letter picks the direction or panics. */
  function ReadInstruction(token: string): (r: Result<Move, RunError>)
    ensures |token| == 0 <==> r == Err(EmptyInstruction)
    ensures r.Ok? ==>
      && token[0] == Letter(r.value.direction)
      && ParseInt(token[1..], true, I32_MIN, I32_MAX) == Some(r.value.amount)
    ensures |token| > 0 && ParseInt(token[1..], true, I32_MIN, I32_MAX).None? ==> r == Err(BadAmount(token[1..]))
  {
    if |token| == 0 then Err(EmptyInstruction)
    else
      match ParseInt(token[1..], true, I32_MIN, I32_MAX)
      case None => Err(BadAmount(token[1..]))
      case Some(n) =>
        match DirectionOf(token[0])
        case Some(d) => Ok(Move(d, n))
        case None => Err(UnknownDirection(token[0]))
  }

  /** The text of an instruction, read back by `ReadInstruction`. */
  lemma InstructionReadsBack(m: Move)
    requires IsI32(m.amount)
    ensures ReadInstruction([Letter(m.direction)] + Show(m.amount)) == Ok(m)
  {
    var token := [Letter(m.direction)] + Show(m.amount);
    assert token[0] == Letter(m.direction) && token[1..] == Show(m.amount);
    ShowParses(m.amount, true, I32_MIN, I32_MAX);
    assert DirectionOf(token[0]) == Some(m.direction);
  }

  /** The instructions of one line, in order; the first bad one ends the
      read. */
  function ReadWire(tokens: seq<string>): (r: Result<seq<Move>, RunError>)
    ensures r.Ok? ==> |r.value| == |tokens|
    ensures r.Ok? ==> forall i :: 0 <= i < |tokens| ==> ReadInstruction(tokens[i]) == Ok(r.value[i])
  {
    if tokens == [] then Ok([])
    else
      var first :- ReadInstruction(tokens[0]);
      var rest :- ReadWire(tokens[1..]);
      Ok([first] + rest)
  }

  /** Every line of the input, split at commas and read. */
  function ReadWires(lines: seq<string>): (r: Result<seq<seq<Move>>, RunError>)
    ensures r.Ok? ==> |r.value| == |lines|
    ensures r.Ok? ==> forall i :: 0 <= i < |lines| ==> ReadWire(Split(lines[i], ',')) == Ok(r.value[i])
  {
    if lines == [] then Ok([])
    else
      var first :- ReadWire(Split(lines[0], ','));
      var rest :- ReadWires(lines[1..]);
      Ok([first] + rest)
  }

  /** The smallest cost among the hits, or `NoAnswer` when there are none. */
  function MinCost(hits: seq<Hit>): (r: Result<int, RunError>)
    ensures r.Ok? <==> |hits| > 0
    ensures r.Err? ==> r.error == NoAnswer
    ensures r.Ok? ==> exists i :: 0 <= i < |hits| && hits[i].2 == r.value
    ensures r.Ok? ==> forall i :: 0 <= i < |hits| ==> r.value <= hits[i].2
  {
    if hits == [] then Err(NoAnswer)
    else
      match MinCost(hits[1..])
      case Err(_) => Ok(hits[0].2)
      case Ok(m) =>
        assert forall i :: 1 <= i < |hits| ==> hits[i] == hits[1..][i - 1];
        Ok(Min(hits[0].2, m))
  }

  /** The unit step of a direction, as `PartTwo` moves. */
  function Delta(d: Direction): Point {
    match d
    case Right => (1, 0)
    case Left => (-1, 0)
    case Down => (0, -1)
    case Up => (0, 1)
  }

  /** The delta `PartOne` hands to `set` for a move. */
  function OneDelta(m: Move): Point {
    match m.direction
    case Right => (m.amount, 0)
    case Left => (-m.amount, 0)
    case Down => (0, -m.amount)
    case Up => (0, m.amount)
  }

  /** The moves of one wire applied to `PartOne`, in order. */
  function OneMoves(s: PartOneState, moves: seq<Move>): PartOneState {
    if moves == [] then s
    else
      var d := OneDelta(moves[|moves| - 1]);
      SetSpec(OneMoves(s, moves[..|moves| - 1]), d.0, d.1)
  }

  /** Each wire's moves, then `line`, for every wire. */
  function OneWires(s: PartOneState, wires: seq<seq<Move>>): PartOneState {
    if wires == [] then s
    else LineOneSpec(OneMoves(OneWires(s, wires[..|wires| - 1]), wires[|wires| - 1]))
  }

  function TwoMoves(s: PartTwoState, moves: seq<Move>): PartTwoState {
    if moves == [] then s
    else
      var m := moves[|moves| - 1];
      Walked(TwoMoves(s, moves[..|moves| - 1]), Delta(m.direction), m.amount)
  }

  function TwoWires(s: PartTwoState, wires: seq<seq<Move>>): PartTwoState {
    if wires == [] then s
    else LineTwoSpec(TwoMoves(TwoWires(s, wires[..|wires| - 1]), wires[|wires| - 1]))
  }

  /** `run(PartOne::new(), reader)`. */
  function RunOneSpec(lines: seq<string>): Result<int, RunError> {
    var wires :- ReadWires(lines);
    MinCost(OneWires(PartOneStart, wires).intersections)
  }

  /** `run(PartTwo::new(), reader)`, which `main` calls. */
  function RunTwoSpec(lines: seq<string>): Result<int, RunError> {
    var wires :- ReadWires(lines);
    MinCost(TwoWires(PartTwoStart, wires).intersections)
  }

  /** Every hit part one reports is off the origin and costs its Manhattan
      distance, so its answer is the distance of the closest crossing it
      found. */
  lemma {:induction false} PartOneHitsRecordable(wires: seq<seq<Move>>)
    ensures Recordable(OneWires(PartOneStart, wires).intersections)
  {
    if wires != [] {
      PartOneHitsRecordable(wires[..|wires| - 1]);
      var s := OneWires(PartOneStart, wires[..|wires| - 1]);
      MovesKeepRecordable(s, wires[|wires| - 1]);
    }
  }

  lemma {:induction false} MovesKeepRecordable(s: PartOneState, moves: seq<Move>)
    requires Recordable(s.intersections)
    ensures Recordable(OneMoves(s, moves).intersections)
  {
    if moves != [] {
      MovesKeepRecordable(s, moves[..|moves| - 1]);
      var d := OneDelta(moves[|moves| - 1]);
      SetKeepsRecordable(OneMoves(s, moves[..|moves| - 1]), d.0, d.1);
    }
  }

  /** The answer of part one is the distance of a recorded crossing off
      the origin, and no recorded crossing is closer. */
  lemma RunOneAnswer(lines: seq<string>)
    ensures ReadWires(lines).Err? ==> RunOneSpec(lines) == Err(ReadWires(lines).error)
    ensures ReadWires(lines).Ok? ==>
      var r := RunOneSpec(lines);
      var hits := OneWires(PartOneStart, ReadWires(lines).value).intersections;
      && (r.Ok? <==> |hits| > 0)
      && (r.Ok? ==> exists i :: 0 <= i < |hits| && !AtOrigin(hits[i]) && r.value == Abs(hits[i].0) + Abs(hits[i].1))
      && (r.Ok? ==> forall i :: 0 <= i < |hits| ==> r.value <= Abs(hits[i].0) + Abs(hits[i].1))
  {
    if ReadWires(lines).Ok? {
      var r := RunOneSpec(lines);
      var wires := ReadWires(lines).value;
      var hits := OneWires(PartOneStart, wires).intersections;
      assert r == MinCost(hits);
      PartOneHitsRecordable(wires);
      if r.Ok? {
        var i :| 0 <= i < |hits| && hits[i].2 == r.value;
        assert !AtOrigin(hits[i]) && r.value == Abs(hits[i].0) + Abs(hits[i].1);
        forall j | 0 <= j < |hits|
          ensures r.value <= Abs(hits[j].0) + Abs(hits[j].1)
        {
          assert r.value <= hits[j].2;
        }
      }
    }
  }

  /** One move on `PartOne`. */
  method ApplyOne(part: PartOne, m: Move)
    modifies part
    ensures part.State() == SetSpec(old(part.State()), OneDelta(m).0, OneDelta(m).1)
  {
    match m.direction {
      case Right => part.Right(m.amount);
      case Left => part.Left(m.amount);
      case Down => part.Down(m.amount);
      case Up => part.Up(m.amount);
    }
  }

  /** One move on `PartTwo`. */
  method ApplyTwo(part: PartTwo, m: Move)
    modifies part
    ensures part.State() == Walked(old(part.State()), Delta(m.direction), m.amount)
  {
    match m.direction {
      case Right => part.Right(m.amount);
      case Left => part.Left(m.amount);
      case Down => part.Down(m.amount);
      case Up => part.Up(m.amount);
    }
  }

  /** One line of instructions on `PartOne`, then `line`. */
  method WireOne(part: PartOne, moves: seq<Move>)
    modifies part
    ensures part.State() == LineOneSpec(OneMoves(old(part.State()), moves))
  {
    ghost var start := part.State();
    var j := 0;
    while j < |moves|
      invariant 0 <= j <= |moves|
      invariant part.State() == OneMoves(start, moves[..j])
    {
      ApplyOne(part, moves[j]);
      assert moves[..j + 1][..j] == moves[..j];
      j := j + 1;
    }
    assert moves[..j] == moves;
    part.Line();
  }

  /** One line of instructions on `PartTwo`, then `line`. */
  method WireTwo(part: PartTwo, moves: seq<Move>)
    modifies part
    ensures part.State() == LineTwoSpec(TwoMoves(old(part.State()), moves))
  {
    ghost var start := part.State();
    var j := 0;
    while j < |moves|
      invariant 0 <= j <= |moves|
      invariant part.State() == TwoMoves(start, moves[..j])
    {
      ApplyTwo(part, moves[j]);
      assert moves[..j + 1][..j] == moves[..j];
      j := j + 1;
    }
    assert moves[..j] == moves;
    part.Line();
  }

  /** Every line's instructions on `PartOne`, in order. */
  method DrawOne(part: PartOne, wires: seq<seq<Move>>)
    modifies part
    ensures part.State() == OneWires(old(part.State()), wires)
  {
    ghost var start := part.State();
    var i := 0;
    while i < |wires|
      invariant 0 <= i <= |wires|
      invariant part.State() == OneWires(start, wires[..i])
    {
      WireOne(part, wires[i]);
      assert wires[..i + 1][..i] == wires[..i];
      i := i + 1;
    }
    assert wires[..i] == wires;
  }

  /** Every line's instructions on `PartTwo`, in order. */
  method DrawTwo(part: PartTwo, wires: seq<seq<Move>>)
    modifies part
    ensures part.State() == TwoWires(old(part.State()), wires)
  {
    ghost var start := part.State();
    var i := 0;
    while i < |wires|
      invariant 0 <= i <= |wires|
      invariant part.State() == TwoWires(start, wires[..i])
    {
      WireTwo(part, wires[i]);
      assert wires[..i + 1][..i] == wires[..i];
      i := i + 1;
    }
    assert wires[..i] == wires;
  }

  /** `run` with `PartOne`: every line's instructions in order, then
      `line`; then the smallest cost, or `no answer`. */
  method RunOne(lines: seq<string>) returns (r: Result<int, RunError>)
    ensures r == RunOneSpec(lines)
  {
    var wires :- ReadWires(lines);
    var part := new PartOne.New();
    DrawOne(part, wires);
    r := MinCost(part.IntoAnswer());
  }

  /** `run` with `PartTwo`, as `main` calls it. */
  method RunTwo(lines: seq<string>) returns (r: Result<int, RunError>)
    ensures r == RunTwoSpec(lines)
  {
    var wires :- ReadWires(lines);
    var part := new PartTwo.New();
    DrawTwo(part, wires);
    r := MinCost(part.IntoAnswer());
  }
}
