/** Day 6 (day_6/src/main.rs): the orbit map. Each input line "A)B" says that B orbits A; the
    map from each body to the bodies orbiting it is a tree rooted at COM. */

module Day6 {
  import opened Common

  // ---------------------------------------------------------------------
  // Reading the map

  /** One line of the input, split at its first ')'. */
  datatype Edge = Edge(attractor: string, orbit: string)

  datatype OrbitError = MissingOrbitSymbol(lineNumber: nat, line: string)

  /** Every body with an entry, mapped to the bodies orbiting it in line
      order. */
  type OrbitMap = map<string, seq<string>>

  /** The index of the first `c` in `s`. */
  function FindChar(s: string, c: char): (r: Option<nat>)
    ensures r.None? <==> c !in s
    ensures r.Some? ==> r.value < |s| && s[r.value] == c && c !in s[..r.value]
  {
    if |s| == 0 then None
    else if s[0] == c then Some(0)
    else match FindChar(s[1..], c)
      case None => None
      case Some(i) =>
        assert s[..i + 1] == [s[0]] + s[1..][..i];
        Some(i + 1)
  }

  /** Splits a line at its first ')': the attractor before it, the orbiting
      body after it. */
  function ParseEdge(line: string): (r: Option<Edge>)
    ensures r.None? <==> ')' !in line
  {
    match FindChar(line, ')')
    case None => None
    case Some(at) => Some(Edge(line[..at], line[at + 1..]))
  }

  /** A parsed line is its attractor, the ')' and the orbiting body, and
      the attractor holds no ')'. */
  lemma ParseEdgeSplits(line: string)
    requires ')' in line
    ensures var e := ParseEdge(line).value;
      line == e.attractor + ")" + e.orbit && ')' !in e.attractor
  {
    var at := FindChar(line, ')').value;
    assert line == line[..at] + ")" + line[at + 1..];
  }

  /** A line written from an edge whose attractor has no ')' reads back as
      that edge. */
  lemma ParseEdgeReadsBack(e: Edge)
    requires ')' !in e.attractor
    ensures ParseEdge(e.attractor + ")" + e.orbit) == Some(e)
  {
    var line := e.attractor + ")" + e.orbit;
    ParseEdgeSplits(line);
    assert line[..|e.attractor|] == e.attractor;
    assert line[|e.attractor|] == ')';
    assert line[|e.attractor| + 1..] == e.orbit;
  }

  function Lookup(m: OrbitMap, a: string): seq<string> {
    if a in m then m[a] else []
  }

  /** The map after the first `n` lines, or the first line without ')'. */
  function Collected(lines: seq<string>, n: nat): Result<OrbitMap, OrbitError>
    requires n <= |lines|
  {
    if n == 0 then Ok(map[])
    else
      var m :- Collected(lines, n - 1);
      match ParseEdge(lines[n - 1])
      case None => Err(MissingOrbitSymbol(n - 1, lines[n - 1]))
      case Some(e) => Ok(m[e.attractor := Lookup(m, e.attractor) + [e.orbit]])
  }

  /** The bodies that the first `n` lines put in orbit around `a`, in line
      order. */
  function Children(lines: seq<string>, n: nat, a: string): seq<string>
    requires n <= |lines|
  {
    if n == 0 then []
    else
      Children(lines, n - 1, a) +
      match ParseEdge(lines[n - 1])
      case Some(e) => if e.attractor == a then [e.orbit] else []
      case None => []
  }

  /** Collecting fails exactly when a line has no ')', and reports the
      first such line with its zero-based number. */
  lemma {:induction false} CollectedFails(lines: seq<string>, n: nat)
    requires n <= |lines|
    ensures Collected(lines, n).Ok? <==> forall i :: 0 <= i < n ==> ')' in lines[i]
    ensures Collected(lines, n).Err? ==>
      var k := Collected(lines, n).error.lineNumber;
      && k < n && ')' !in lines[k] && Collected(lines, n).error.line == lines[k]
      && forall i :: 0 <= i < k ==> ')' in lines[i]
  {
    if n > 0 {
      CollectedFails(lines, n - 1);
      var prev := Collected(lines, n - 1);
      if prev.Err? {
        assert Collected(lines, n) == prev;
        assert ')' !in lines[prev.error.lineNumber];
      } else if ')' in lines[n - 1] {
        assert ParseEdge(lines[n - 1]).Some?;
        assert Collected(lines, n).Ok?;
      } else {
        assert ParseEdge(lines[n - 1]).None?;
        assert Collected(lines, n) == Err(MissingOrbitSymbol(n - 1, lines[n - 1]));
      }
    }
  }

  /** Once a prefix fails, every longer prefix fails the same way. */
  lemma {:induction false} CollectedStaysFailed(lines: seq<string>, n: nat, k: nat)
    requires n <= k <= |lines|
    requires Collected(lines, n).Err?
    ensures Collected(lines, k) == Collected(lines, n)
    decreases k
  {
    if k > n {
      CollectedStaysFailed(lines, n, k - 1);
    }
  }

  /** A successful collection lists, for each body, exactly the bodies the
      lines put in orbit around it, in line order, and has an entry only
      for bodies that something orbits. */
  lemma {:induction false} CollectedLists(lines: seq<string>, n: nat, a: string)
    requires n <= |lines|
    requires Collected(lines, n).Ok?
    ensures Lookup(Collected(lines, n).value, a) == Children(lines, n, a)
    ensures a in Collected(lines, n).value <==> |Children(lines, n, a)| > 0
  {
    if n > 0 {
      CollectedLists(lines, n - 1, a);
    }
  }

  /** Reads the lines into the orbit map, stopping at the first line
      without ')'. */
  method Collect(lines: seq<string>) returns (r: Result<OrbitMap, OrbitError>)
    ensures r == Collected(lines, |lines|)
  {
    var m: OrbitMap := map[];
    for n := 0 to |lines|
      invariant Collected(lines, n) == Ok(m)
    {
      var line := lines[n];
      var at := FindChar(line, ')');
      if at.None? {
        CollectedStaysFailed(lines, n + 1, |lines|);
        return Err(MissingOrbitSymbol(n, line));
      }
      var attractor, orbit := line[..at.value], line[at.value + 1..];
      m := m[attractor := Lookup(m, attractor) + [orbit]];
    }
    r := Ok(m);
  }

  // ---------------------------------------------------------------------
  // Acyclic maps

  /** `rank` decreases from a body to every body with an entry that orbits
      it, so following entries always ends. The recursion below needs it:
      on a cyclic map it would never return. */
  ghost predicate Ranked(m: OrbitMap, rank: map<string, nat>) {
    && m.Keys <= rank.Keys
    && forall a, i :: a in m && 0 <= i < |m[a]| && m[a][i] in m ==> rank[m[a][i]] < rank[a]
  }

  ghost function Height(m: OrbitMap, rank: map<string, nat>, key: string): nat
    requires Ranked(m, rank)
  {
    if key in m then rank[key] + 1 else 0
  }

  ghost predicate Below(m: OrbitMap, rank: map<string, nat>, cs: seq<string>, bound: nat)
    requires Ranked(m, rank)
  {
    forall i :: 0 <= i < |cs| ==> Height(m, rank, cs[i]) < bound
  }

  lemma EntriesBelow(m: OrbitMap, rank: map<string, nat>, key: string)
    requires Ranked(m, rank) && key in m
    ensures Below(m, rank, m[key], Height(m, rank, key))
  {
  }

  // ---------------------------------------------------------------------
  // Part one: total orbits

  /** `depth` for a body without an entry; otherwise `depth` plus the
      counts of its orbiting bodies one level deeper. */
  function CountChildren(key: string, m: OrbitMap, depth: nat, ghost rank: map<string, nat>): nat
    requires Ranked(m, rank)
    decreases Height(m, rank, key), 1
  {
    if key in m then
      EntriesBelow(m, rank, key);
      FoldCount(m[key], m, depth, depth + 1, rank, Height(m, rank, key))
    else depth
  }

  /** The fold over an entry's bodies, starting from `acc`. */
  function FoldCount(cs: seq<string>, m: OrbitMap, acc: nat, depth: nat, ghost rank: map<string, nat>, ghost bound: nat): nat
    requires Ranked(m, rank) && Below(m, rank, cs, bound)
    decreases bound, 0, |cs|
  {
    if |cs| == 0 then acc
    else FoldCount(cs[1..], m, acc + CountChildren(cs[0], m, depth, rank), depth, rank, bound)
  }

  function CountRelationships(m: OrbitMap, depth: nat, ghost rank: map<string, nat>): nat
    requires Ranked(m, rank)
  {
    CountChildren("COM", m, depth, rank)
  }

  function PartOne(m: OrbitMap, ghost rank: map<string, nat>): nat
    requires Ranked(m, rank)
  {
    CountRelationships(m, 0, rank)
  }

  /** The depth of every body in the subtree under `key`, `key` first. */
  ghost function Depths(key: string, m: OrbitMap, depth: nat, rank: map<string, nat>): seq<nat>
    requires Ranked(m, rank)
    decreases Height(m, rank, key), 1
  {
    if key in m then
      EntriesBelow(m, rank, key);
      [depth] + AllDepths(m[key], m, depth + 1, rank, Height(m, rank, key))
    else [depth]
  }

  ghost function AllDepths(cs: seq<string>, m: OrbitMap, depth: nat, rank: map<string, nat>, bound: nat): seq<nat>
    requires Ranked(m, rank) && Below(m, rank, cs, bound)
    decreases bound, 0, |cs|
  {
    if |cs| == 0 then [] else Depths(cs[0], m, depth, rank) + AllDepths(cs[1..], m, depth, rank, bound)
  }

  function Sum(xs: seq<nat>): nat {
    if |xs| == 0 then 0 else xs[0] + Sum(xs[1..])
  }

  lemma {:induction false} SumAppend(xs: seq<nat>, ys: seq<nat>)
    ensures Sum(xs + ys) == Sum(xs) + Sum(ys)
  {
    if |xs| == 0 {
      assert xs + ys == ys;
    } else {
      SumAppend(xs[1..], ys);
      assert (xs + ys)[1..] == xs[1..] + ys;
    }
  }

  /** The count is the sum of the depths of all bodies in the subtree. */
  lemma {:induction false} CountSumsDepths(key: string, m: OrbitMap, depth: nat, rank: map<string, nat>)
    requires Ranked(m, rank)
    ensures CountChildren(key, m, depth, rank) == Sum(Depths(key, m, depth, rank))
    decreases Height(m, rank, key), 1
  {
    if key in m {
      EntriesBelow(m, rank, key);
      FoldSumsDepths(m[key], m, depth, depth + 1, rank, Height(m, rank, key));
      SumAppend([depth], AllDepths(m[key], m, depth + 1, rank, Height(m, rank, key)));
    }
  }

  lemma {:induction false} FoldSumsDepths(cs: seq<string>, m: OrbitMap, acc: nat, depth: nat, rank: map<string, nat>, bound: nat)
    requires Ranked(m, rank) && Below(m, rank, cs, bound)
    ensures FoldCount(cs, m, acc, depth, rank, bound) == acc + Sum(AllDepths(cs, m, depth, rank, bound))
    decreases bound, 0, |cs|
  {
    if |cs| > 0 {
      CountSumsDepths(cs[0], m, depth, rank);
      FoldSumsDepths(cs[1..], m, acc + CountChildren(cs[0], m, depth, rank), depth, rank, bound);
      SumAppend(Depths(cs[0], m, depth, rank), AllDepths(cs[1..], m, depth, rank, bound));
    }
  }

  // ---------------------------------------------------------------------
  // Paths

  /** `target` orbits `at`, directly or through a chain of entries. */
  ghost predicate Reaches(at: string, target: string, m: OrbitMap, rank: map<string, nat>)
    requires Ranked(m, rank)
    decreases Height(m, rank, at)
  {
    at in m && exists i :: 0 <= i < |m[at]| && (m[at][i] == target || Reaches(m[at][i], target, m, rank))
  }

  /** The path that `inner_find` leaves behind: from `at` down to the body
      that `lookFor` orbits, trying each entry's bodies in order. */
  function PathFrom(lookFor: string, at: string, m: OrbitMap, ghost rank: map<string, nat>): Option<seq<string>>
    requires Ranked(m, rank)
    decreases Height(m, rank, at), 1
  {
    if at in m then
      EntriesBelow(m, rank, at);
      match Search(m[at], lookFor, m, rank, Height(m, rank, at))
      case Some(p) => Some([at] + p)
      case None => None
    else None
  }

  /** The first body of `cs` that is `lookFor` or leads to it, as the path
      below it. */
  function Search(cs: seq<string>, lookFor: string, m: OrbitMap, ghost rank: map<string, nat>, ghost bound: nat): Option<seq<string>>
    requires Ranked(m, rank) && Below(m, rank, cs, bound)
    decreases bound, 0, |cs|
  {
    if |cs| == 0 then None
    else if cs[0] == lookFor then Some([])
    else match PathFrom(lookFor, cs[0], m, rank)
      case Some(p) => Some(p)
      case None => Search(cs[1..], lookFor, m, rank, bound)
  }

  /** A path is found exactly when `lookFor` orbits `at`, directly or
      not. */
  lemma {:induction false} PathFound(lookFor: string, at: string, m: OrbitMap, rank: map<string, nat>)
    requires Ranked(m, rank)
    ensures PathFrom(lookFor, at, m, rank).Some? <==> Reaches(at, lookFor, m, rank)
    decreases Height(m, rank, at), 1
  {
    if at in m {
      EntriesBelow(m, rank, at);
      SearchFound(m[at], lookFor, m, rank, Height(m, rank, at));
    }
  }

  lemma {:induction false} SearchFound(cs: seq<string>, lookFor: string, m: OrbitMap, rank: map<string, nat>, bound: nat)
    requires Ranked(m, rank) && Below(m, rank, cs, bound)
    ensures Search(cs, lookFor, m, rank, bound).Some? <==>
      exists i :: 0 <= i < |cs| && (cs[i] == lookFor || Reaches(cs[i], lookFor, m, rank))
    decreases bound, 0, |cs|
  {
    if |cs| > 0 {
      PathFound(lookFor, cs[0], m, rank);
      SearchFound(cs[1..], lookFor, m, rank, bound);
      if exists i :: 0 <= i < |cs| && (cs[i] == lookFor || Reaches(cs[i], lookFor, m, rank)) {
        var i :| 0 <= i < |cs| && (cs[i] == lookFor || Reaches(cs[i], lookFor, m, rank));
        if i > 0 {
          assert cs[1..][i - 1] == cs[i];
        }
      }
      if exists i :: 0 <= i < |cs[1..]| && (cs[1..][i] == lookFor || Reaches(cs[1..][i], lookFor, m, rank)) {
        var i :| 0 <= i < |cs[1..]| && (cs[1..][i] == lookFor || Reaches(cs[1..][i], lookFor, m, rank));
        assert cs[i + 1] == cs[1..][i];
      }
    }
  }

  /** A chain of entries from `from`: each body orbits the one before, and
      `lookFor` orbits the last. */
  ghost predicate IsChain(p: seq<string>, from: string, lookFor: string, m: OrbitMap) {
    && |p| > 0 && p[0] == from
    && (forall i :: 0 <= i < |p| - 1 ==> p[i] in m && p[i + 1] in m[p[i]])
    && p[|p| - 1] in m && lookFor in m[p[|p| - 1]]
  }

  /** A found path starts at `at` and follows entries down to the body
      `lookFor` orbits. */
  lemma {:induction false} PathIsChain(lookFor: string, at: string, m: OrbitMap, rank: map<string, nat>)
    requires Ranked(m, rank) && PathFrom(lookFor, at, m, rank).Some?
    ensures IsChain(PathFrom(lookFor, at, m, rank).value, at, lookFor, m)
    decreases Height(m, rank, at), 1
  {
    EntriesBelow(m, rank, at);
    SearchIsChain(m[at], at, lookFor, m, rank, Height(m, rank, at));
  }

  lemma {:induction false} SearchIsChain(cs: seq<string>, at: string, lookFor: string, m: OrbitMap, rank: map<string, nat>, bound: nat)
    requires Ranked(m, rank) && Below(m, rank, cs, bound)
    requires at in m && forall i :: 0 <= i < |cs| ==> cs[i] in m[at]
    requires Search(cs, lookFor, m, rank, bound).Some?
    ensures IsChain([at] + Search(cs, lookFor, m, rank, bound).value, at, lookFor, m)
    decreases bound, 0, |cs|
  {
    if cs[0] == lookFor {
      assert ([at] + [])[0] == at;
    } else if PathFrom(lookFor, cs[0], m, rank).Some? {
      var p := PathFrom(lookFor, cs[0], m, rank).value;
      PathIsChain(lookFor, cs[0], m, rank);
      var q := [at] + p;
      assert forall i :: 1 <= i < |q| ==> q[i] == p[i - 1];
    } else {
      SearchIsChain(cs[1..], at, lookFor, m, rank, bound);
    }
  }

  /** The `VecDeque` the search pushes onto. */
  class Deque {
    var items: seq<string>

    constructor ()
      ensures items == []
    {
      items := [];
    }

    method PushFront(x: string)
      modifies this
      ensures items == [x] + old(items)
    {
      items := [x] + items;
    }
  }

  /** Looks for `lookFor` below `at`; when found, the path from `at` down
      to the body it orbits is pushed onto the front of `v`. */
  method InnerFind(lookFor: string, at: string, m: OrbitMap, ghost rank: map<string, nat>, v: Deque) returns (found: bool)
    requires Ranked(m, rank)
    modifies v
    ensures found == PathFrom(lookFor, at, m, rank).Some?
    ensures v.items == if found then PathFrom(lookFor, at, m, rank).value + old(v.items) else old(v.items)
    decreases Height(m, rank, at)
  {
    if at in m {
      var children := m[at];
      ghost var bound := Height(m, rank, at);
      EntriesBelow(m, rank, at);
      for i := 0 to |children|
        invariant v.items == old(v.items)
        invariant Search(children, lookFor, m, rank, bound) == Search(children[i..], lookFor, m, rank, bound)
      {
        assert children[i..][1..] == children[i + 1..];
        var child := children[i];
        var hit := child == lookFor;
        if !hit {
          hit := InnerFind(lookFor, child, m, rank, v);
        }
        if hit {
          v.PushFront(at);
          return true;
        }
      }
    }
    return false;
  }

  function FoundPath(key: string, m: OrbitMap, ghost rank: map<string, nat>): seq<string>
    requires Ranked(m, rank)
  {
    match PathFrom(key, "COM", m, rank)
    case Some(p) => p
    case None => []
  }

  /** The path from COM down to the body `key` orbits; empty when `key`
      is not below COM. */
  method Find(key: string, m: OrbitMap, ghost rank: map<string, nat>) returns (path: seq<string>)
    requires Ranked(m, rank)
    ensures path == FoundPath(key, m, rank)
    ensures |path| > 0 <==> Reaches("COM", key, m, rank)
    ensures |path| > 0 ==> IsChain(path, "COM", key, m)
  {
    var results := new Deque();
    var found := InnerFind(key, "COM", m, rank, results);
    path := results.items;
    PathFound(key, "COM", m, rank);
    if found {
      PathIsChain(key, "COM", m, rank);
    }
  }

  // ---------------------------------------------------------------------
  // Part two: orbital transfers

  /** The paths padded with empty names without end. */
  function Pad(s: seq<string>, i: nat): string {
    if i < |s| then s[i] else ""
  }

  /** The first index from `i` on where the padded paths differ; `None`
      when they never do, and then skipping equal pairs runs forever. */
  function SkipSame(me: seq<string>, santa: seq<string>, i: nat): Option<nat>
    decreases Max(|me|, |santa|) - i
  {
    if i >= Max(|me|, |santa|) then None
    else if Pad(me, i) != Pad(santa, i) then Some(i)
    else SkipSame(me, santa, i + 1)
  }

  /** The names counted from `i` on, until both padded paths are
      empty. */
  function CountRest(me: seq<string>, santa: seq<string>, i: nat): nat
    decreases Max(|me|, |santa|) - i
  {
    if Pad(me, i) == "" && Pad(santa, i) == "" then 0
    else (if Pad(me, i) != "" then 1 else 0) + (if Pad(santa, i) != "" then 1 else 0) + CountRest(me, santa, i + 1)
  }

  /** The number of transfers between the bodies YOU and SAN orbit, or
      `None` where the pipeline never finishes. */
  function Transfers(me: seq<string>, santa: seq<string>): Option<nat> {
    match SkipSame(me, santa, 0)
    case None => None
    case Some(p) => Some(CountRest(me, santa, p))
  }

  /** The length of the longest common prefix. */
  function CommonPrefix(a: seq<string>, b: seq<string>): (n: nat)
    ensures n <= |a| && n <= |b| && a[..n] == b[..n]
    ensures n < |a| && n < |b| ==> a[n] != b[n]
  {
    if |a| > 0 && |b| > 0 && a[0] == b[0] then
      var n := CommonPrefix(a[1..], b[1..]);
      assert a[..n + 1] == [a[0]] + a[1..][..n];
      assert b[..n + 1] == [b[0]] + b[1..][..n];
      1 + n
    else 0
  }

  predicate NoEmptyNames(s: seq<string>) {
    forall i :: 0 <= i < |s| ==> s[i] != ""
  }

  lemma {:induction false} SkipFindsPrefixEnd(me: seq<string>, santa: seq<string>, i: nat)
    requires NoEmptyNames(me) && NoEmptyNames(santa)
    requires i <= CommonPrefix(me, santa)
    ensures SkipSame(me, santa, i) == if me == santa then None else Some(CommonPrefix(me, santa))
    decreases Max(|me|, |santa|) - i
  {
    var n := CommonPrefix(me, santa);
    if i < n {
      assert me[i] == me[..n][i] == santa[..n][i] == santa[i];
      SkipFindsPrefixEnd(me, santa, i + 1);
    } else if me == santa {
      assert i >= |me|;
    }
  }

  lemma {:induction false} CountRestCounts(me: seq<string>, santa: seq<string>, i: nat)
    requires NoEmptyNames(me) && NoEmptyNames(santa)
    ensures CountRest(me, santa, i) == (if i < |me| then |me| - i else 0) + (if i < |santa| then |santa| - i else 0)
    decreases Max(|me|, |santa|) - i
  {
    if i < |me| || i < |santa| {
      CountRestCounts(me, santa, i + 1);
    }
  }

  /** With non-empty names, the transfers are the names on both paths
      after their common prefix; the count never finishes exactly when the
      paths are equal. */
  lemma TransfersAfterCommonPrefix(me: seq<string>, santa: seq<string>)
    requires NoEmptyNames(me) && NoEmptyNames(santa)
    ensures Transfers(me, santa).None? <==> me == santa
    ensures me != santa ==> Transfers(me, santa) == Some(|me| + |santa| - 2 * CommonPrefix(me, santa))
  {
    SkipFindsPrefixEnd(me, santa, 0);
    if me != santa {
      CountRestCounts(me, santa, CommonPrefix(me, santa));
    }
  }

  /** Finds the paths to YOU and to SAN and counts the transfers between
      them. */
  method PartTwo(m: OrbitMap, ghost rank: map<string, nat>) returns (r: Option<nat>)
    requires Ranked(m, rank)
    ensures r == Transfers(FoundPath("YOU", m, rank), FoundPath("SAN", m, rank))
  {
    var me := Find("YOU", m, rank);
    var santa := Find("SAN", m, rank);
    r := Transfers(me, santa);
  }

  // ---------------------------------------------------------------------
  // The worked example

  const ExampleMap: OrbitMap :=
    map["COM" := ["B"], "B" := ["C", "G"], "C" := ["D"], "D" := ["E", "I"],
        "E" := ["F", "J"], "G" := ["H"], "J" := ["K"], "K" := ["L"]]

  const ExampleRank: map<string, nat> :=
    map["COM" := 6, "B" := 5, "C" := 4, "D" := 3, "E" := 2, "G" := 0, "J" := 1, "K" := 0]

  /** The map that the example lines COM)B, B)C, C)D, D)E, E)F, B)G, G)H,
      D)I, E)J, J)K and K)L collect to, and its entries. */
  lemma ExampleEntries()
    ensures Ranked(ExampleMap, ExampleRank)
    ensures ExampleMap["COM"] == ["B"] && ExampleMap["B"] == ["C", "G"] && ExampleMap["C"] == ["D"]
    ensures ExampleMap["D"] == ["E", "I"] && ExampleMap["E"] == ["F", "J"] && ExampleMap["G"] == ["H"]
    ensures ExampleMap["J"] == ["K"] && ExampleMap["K"] == ["L"]
    ensures "F" !in ExampleMap && "H" !in ExampleMap && "I" !in ExampleMap && "L" !in ExampleMap
  {
  }

  /** The example map has 42 direct and indirect orbits. */
  lemma ExampleTotal()
    ensures Ranked(ExampleMap, ExampleRank)
    ensures PartOne(ExampleMap, ExampleRank) == 42
  {
    var m, rank := ExampleMap, ExampleRank;
    ExampleEntries();
    assert CountChildren("K", m, 6, rank) == 13 by {
      assert CountChildren("L", m, 7, rank) == 7;
    }
    assert CountChildren("J", m, 5, rank) == 18;
    assert CountChildren("E", m, 4, rank) == 27 by {
      assert CountChildren("F", m, 5, rank) == 5;
    }
    assert CountChildren("D", m, 3, rank) == 34 by {
      assert CountChildren("I", m, 4, rank) == 4;
    }
    assert CountChildren("C", m, 2, rank) == 36;
    assert CountChildren("G", m, 2, rank) == 5 by {
      assert CountChildren("H", m, 3, rank) == 3;
    }
    assert CountChildren("B", m, 1, rank) == 42;
  }

  /** In the example, the path to the body K orbits is COM, B, C, D, E,
      J. */
  lemma ExampleFindsK()
    ensures Ranked(ExampleMap, ExampleRank)
    ensures FoundPath("K", ExampleMap, ExampleRank) == ["COM", "B", "C", "D", "E", "J"]
  {
    var m, rank := ExampleMap, ExampleRank;
    ExampleEntries();
    assert Search(m["J"], "K", m, rank, Height(m, rank, "J")) == Some([]);
    assert PathFrom("K", "J", m, rank) == Some(["J"]) by {
      assert ["J"] + [] == ["J"];
    }
    assert PathFrom("K", "F", m, rank) == None;
    assert Search(m["E"], "K", m, rank, Height(m, rank, "E")) == Some(["J"]) by {
      assert m["E"][1..] == ["J"];
    }
    assert PathFrom("K", "E", m, rank) == Some(["E", "J"]) by {
      assert ["E"] + ["J"] == ["E", "J"];
    }
    assert Search(m["D"], "K", m, rank, Height(m, rank, "D")) == Some(["E", "J"]);
    assert PathFrom("K", "D", m, rank) == Some(["D", "E", "J"]) by {
      assert ["D"] + ["E", "J"] == ["D", "E", "J"];
    }
    assert PathFrom("K", "C", m, rank) == Some(["C", "D", "E", "J"]) by {
      assert ["C"] + ["D", "E", "J"] == ["C", "D", "E", "J"];
    }
    assert Search(m["B"], "K", m, rank, Height(m, rank, "B")) == Some(["C", "D", "E", "J"]);
    assert PathFrom("K", "B", m, rank) == Some(["B", "C", "D", "E", "J"]) by {
      assert ["B"] + ["C", "D", "E", "J"] == ["B", "C", "D", "E", "J"];
    }
  }
}
