/** Day 4 (day_4/src/main.rs): counting the passwords in a range whose digits never decrease and
    that hold a pair of equal adjacent digits (part two: a pair that is not
    part of a longer run). */

module Day4 {
  import opened Common

  const StartN: nat := 357253
  const EndN: nat := 892942

  // ---------------------------------------------------------------------
  // Digits

  /** The decimal digits of `n`, least significant first; none for 0. */
  function Digits(n: nat): (ds: seq<nat>)
    ensures forall i :: 0 <= i < |ds| ==> ds[i] < 10
    ensures |ds| > 0 ==> ds[|ds| - 1] != 0
  {
    if n == 0 then [] else [n % 10] + Digits(n / 10)
  }

  /** The number whose digits, least significant first, are `ds`. */
  function Value(ds: seq<nat>): nat {
    if |ds| == 0 then 0 else ds[0] + 10 * Value(ds[1..])
  }

  /** Reading the digits back gives the number. */
  lemma {:induction false} DigitsValue(n: nat)
    ensures Value(Digits(n)) == n
  {
    if n > 0 {
      DigitsValue(n / 10);
      assert Digits(n)[1..] == Digits(n / 10);
    }
  }

  /** Digits below 10 without a trailing zero are the digits of their
      value. */
  lemma {:induction false} ValueDigits(ds: seq<nat>)
    requires forall i :: 0 <= i < |ds| ==> ds[i] < 10
    requires |ds| > 0 ==> ds[|ds| - 1] != 0
    ensures Digits(Value(ds)) == ds
  {
    if |ds| > 0 {
      ValueDigits(ds[1..]);
      if |ds| > 1 {
        assert Value(ds[1..]) > 0 by { ValuePositive(ds[1..]); }
      }
      var v := Value(ds);
      assert v % 10 == ds[0] && v / 10 == Value(ds[1..]);
      assert Digits(v) == [ds[0]] + ds[1..];
    }
  }

  lemma {:induction false} ValuePositive(ds: seq<nat>)
    requires |ds| > 0 && ds[|ds| - 1] != 0
    ensures Value(ds) > 0
  {
    if |ds| > 1 {
      ValuePositive(ds[1..]);
    }
  }

  /** The digit iterator: each call yields the lowest digit of what is
      left and drops it. */
  class NumSplitIter {
    var current: nat

    constructor (num: nat)
      ensures current == num
    {
      current := num;
    }

    method Next() returns (r: Option<nat>)
      modifies this
      ensures old(current) == 0 ==> r == None && current == 0
      ensures old(current) > 0 ==> r == Some(old(current) % 10) && current == old(current) / 10
      ensures old(current) > 0 ==> current < old(current)
      ensures Digits(old(current)) == (if r.Some? then [r.value] else []) + Digits(current)
    {
      if current > 0 {
        var dig := current % 10;
        r := Some(dig);
        current := current - dig;
        current := current / 10;
      } else {
        r := None;
      }
    }
  }

  /** What one call of the iterator yields, as a sequence. */
  function Yielded(o: Option<nat>): seq<nat> {
    if o.Some? then [o.value] else []
  }

  /** Drains a fresh iterator over `num`: the digits come out least
      significant first. */
  method SplitNum(num: nat) returns (ds: seq<nat>)
    ensures ds == Digits(num)
  {
    var it := new NumSplitIter(num);
    ds := [];
    var next := it.Next();
    ghost var rest := Digits(it.current);
    while next.Some?
      invariant rest == Digits(it.current)
      invariant ds + Yielded(next) + rest == Digits(num)
      invariant next.None? ==> rest == []
      decreases it.current, next.Some?
    {
      ds := ds + [next.value];
      ghost var before := rest;
      next := it.Next();
      rest := Digits(it.current);
      Regroup(ds, before, Yielded(next), rest);
    }
  }

  /** Moving the yielded digit from the rest onto the output keeps the
      whole. */
  lemma Regroup(a: seq<nat>, before: seq<nat>, y: seq<nat>, rest: seq<nat>)
    requires before == y + rest
    ensures a + before == a + y + rest
  {
  }

  // ---------------------------------------------------------------------
  // The digit tests

  /** Some pair of neighbouring digits from the zip of the digits with
      their own tail is equal. */
  function AnyEqualNeighbours(ds: seq<nat>): bool {
    |ds| >= 2 && (ds[0] == ds[1] || AnyEqualNeighbours(ds[1..]))
  }

  /** Every neighbouring pair has the lower digit no smaller than the
      higher one. */
  function AllNonIncreasing(ds: seq<nat>): bool {
    |ds| < 2 || (ds[0] >= ds[1] && AllNonIncreasing(ds[1..]))
  }

  function HasDoubleDigit(num: nat): bool {
    AnyEqualNeighbours(Digits(num))
  }

  function OnlyIncreasing(num: nat): bool {
    AllNonIncreasing(Digits(num))
  }

  /** Some two adjacent digits are equal, and only then. */
  lemma {:induction false} EqualNeighboursExist(ds: seq<nat>)
    ensures AnyEqualNeighbours(ds) <==> exists i :: 0 <= i < |ds| - 1 && ds[i] == ds[i + 1]
  {
    if |ds| >= 2 {
      EqualNeighboursExist(ds[1..]);
      if exists i :: 0 <= i < |ds| - 1 && ds[i] == ds[i + 1] {
        var i :| 0 <= i < |ds| - 1 && ds[i] == ds[i + 1];
        if i > 0 {
          assert ds[1..][i - 1] == ds[i] && ds[1..][i] == ds[i + 1];
        }
      }
      if AnyEqualNeighbours(ds[1..]) {
        var i :| 0 <= i < |ds[1..]| - 1 && ds[1..][i] == ds[1..][i + 1];
        assert ds[i + 1] == ds[i + 2];
      }
    }
  }

  /** Digits, least significant first, that never increase: read from the
      most significant end they never decrease. */
  ghost predicate Sorted(ds: seq<nat>) {
    forall i, j :: 0 <= i < j < |ds| ==> ds[i] >= ds[j]
  }

  /** Checking neighbours is the same as checking every pair. */
  lemma {:induction false} NonIncreasingSorted(ds: seq<nat>)
    ensures AllNonIncreasing(ds) <==> Sorted(ds)
  {
    if |ds| >= 2 {
      NonIncreasingSorted(ds[1..]);
      if AllNonIncreasing(ds) {
        forall i, j | 0 <= i < j < |ds|
          ensures ds[i] >= ds[j]
        {
          if i > 0 {
            assert ds[i] == ds[1..][i - 1] && ds[j] == ds[1..][j - 1];
          } else {
            assert ds[1] == ds[1..][0] && ds[j] == ds[1..][j - 1];
          }
        }
      }
      if Sorted(ds) {
        assert Sorted(ds[1..]) by {
          forall i, j | 0 <= i < j < |ds[1..]|
            ensures ds[1..][i] >= ds[1..][j]
          {
            assert ds[1..][i] == ds[i + 1] && ds[1..][j] == ds[j + 1];
          }
        }
      }
    }
  }

  // ---------------------------------------------------------------------
  // Runs

  /** The left digit of every equal neighbouring pair, in order. */
  function EqualPairs(ds: seq<nat>): seq<nat> {
    if |ds| < 2 then []
    else (if ds[0] == ds[1] then [ds[0]] else []) + EqualPairs(ds[1..])
  }

  /** `group_by` on equal consecutive values: each group's value and
      size. */
  function Groups(xs: seq<nat>): (gs: seq<(nat, nat)>)
    ensures |xs| > 0 <==> |gs| > 0
    ensures |xs| > 0 ==> gs[0].0 == xs[0]
    ensures forall k :: 0 <= k < |gs| ==> gs[k].1 >= 1
  {
    if |xs| == 0 then []
    else
      var g := Groups(xs[1..]);
      if |g| > 0 && g[0].0 == xs[0] then [(xs[0], g[0].1 + 1)] + g[1..]
      else [(xs[0], 1)] + g
  }

  /** Some group of equal pairs has one more than its size equal to 2. */
  function HasMultiDigit(num: nat): bool {
    var gs := Groups(EqualPairs(Digits(num)));
    exists k :: 0 <= k < |gs| && gs[k].1 + 1 == 2
  }

  /** `n` copies of `v`. */
  function Repeat(v: nat, n: nat): seq<nat> {
    if n == 0 then [] else [v] + Repeat(v, n - 1)
  }

  function Flatten(gs: seq<(nat, nat)>): seq<nat> {
    if |gs| == 0 then [] else Repeat(gs[0].0, gs[0].1) + Flatten(gs[1..])
  }

  /** The groups are the maximal runs: laid end to end they give the
      sequence back, and neighbouring groups differ in value. */
  lemma GroupsAreMaximalRuns(xs: seq<nat>)
    ensures Flatten(Groups(xs)) == xs
    ensures forall k :: 0 <= k < |Groups(xs)| - 1 ==> Groups(xs)[k].0 != Groups(xs)[k + 1].0
  {
    GroupsFlatten(xs);
    GroupsDiffer(xs);
  }

  lemma {:induction false} GroupsFlatten(xs: seq<nat>)
    ensures Flatten(Groups(xs)) == xs
  {
    if |xs| > 0 {
      GroupsFlatten(xs[1..]);
      var g := Groups(xs[1..]);
      var gs := Groups(xs);
      assert xs == [xs[0]] + xs[1..];
      if |g| > 0 && g[0].0 == xs[0] {
        assert gs == [(xs[0], g[0].1 + 1)] + g[1..];
        assert gs[1..] == g[1..];
        assert Flatten(gs) == Repeat(xs[0], g[0].1 + 1) + Flatten(g[1..]);
        assert Repeat(xs[0], g[0].1 + 1) == [xs[0]] + Repeat(xs[0], g[0].1);
        assert Flatten(g) == Repeat(g[0].0, g[0].1) + Flatten(g[1..]);
      } else {
        assert gs == [(xs[0], 1)] + g;
        assert gs[1..] == g;
        assert Flatten(gs) == Repeat(xs[0], 1) + Flatten(g);
        assert Repeat(xs[0], 1) == [xs[0]];
      }
    }
  }

  lemma {:induction false} GroupsDiffer(xs: seq<nat>)
    ensures forall k :: 0 <= k < |Groups(xs)| - 1 ==> Groups(xs)[k].0 != Groups(xs)[k + 1].0
  {
    if |xs| > 0 {
      GroupsDiffer(xs[1..]);
      var g := Groups(xs[1..]);
      var gs := Groups(xs);
      if |g| > 0 && g[0].0 == xs[0] {
        assert gs == [(xs[0], g[0].1 + 1)] + g[1..];
        forall k | 0 <= k < |gs| - 1
          ensures gs[k].0 != gs[k + 1].0
        {
          assert gs[k + 1] == g[k + 1];
          if k > 0 {
            assert gs[k] == g[k];
          }
        }
      } else {
        assert gs == [(xs[0], 1)] + g;
        forall k | 0 <= k < |gs| - 1
          ensures gs[k].0 != gs[k + 1].0
        {
          assert gs[k + 1] == g[k];
          if k > 0 {
            assert gs[k] == g[k - 1];
          }
        }
      }
    }
  }

  /** The groups of length at least 2, each one shorter: what the groups
      of the equal pairs should be. */
  function Shrunk(gs: seq<(nat, nat)>): seq<(nat, nat)> {
    if |gs| == 0 then []
    else if gs[0].1 >= 2 then [(gs[0].0, gs[0].1 - 1)] + Shrunk(gs[1..])
    else Shrunk(gs[1..])
  }

  lemma {:induction false} ShrunkValues(gs: seq<(nat, nat)>, bound: nat)
    requires forall k :: 0 <= k < |gs| ==> gs[k].0 < bound
    ensures forall k :: 0 <= k < |Shrunk(gs)| ==> Shrunk(gs)[k].0 < bound
  {
    if |gs| > 0 {
      ShrunkValues(gs[1..], bound);
    }
  }

  /** In sorted digits, the groups after the first hold smaller
      digits. */
  lemma {:induction false} LaterGroupsSmaller(xs: seq<nat>)
    requires AllNonIncreasing(xs) && |xs| > 0
    ensures forall k :: 1 <= k < |Groups(xs)| ==> Groups(xs)[k].0 < xs[0]
  {
    NonIncreasingSorted(xs);
    GroupsAreMaximalRuns(xs);
    var gs := Groups(xs);
    forall k | 1 <= k < |gs|
      ensures gs[k].0 < xs[0]
    {
      var i := GroupStart(gs, k);
      FlattenAt(gs, k);
      assert xs[i] == gs[k].0;
      assert i > 0;
      if gs[k].0 == xs[0] {
        // every digit between position 0 and i is then equal to xs[0],
        // so the first group would reach past i
        FirstGroupCovers(xs, i);
        assert false;
      }
    }
  }

  /** Where group `k` starts in the flattened sequence. */
  function GroupStart(gs: seq<(nat, nat)>, k: nat): nat
    requires k <= |gs|
  {
    if k == 0 then 0 else GroupStart(gs, k - 1) + gs[k - 1].1
  }

  lemma {:induction false} FlattenAt(gs: seq<(nat, nat)>, k: nat)
    requires k < |gs| && gs[k].1 >= 1
    ensures GroupStart(gs, k) < |Flatten(gs)| && Flatten(gs)[GroupStart(gs, k)] == gs[k].0
    ensures k > 0 ==> GroupStart(gs, k) >= gs[0].1
  {
    if k == 0 {
      assert Repeat(gs[0].0, gs[0].1)[0] == gs[0].0;
    } else {
      assert gs[1..][k - 1] == gs[k];
      FlattenAt(gs[1..], k - 1);
      GroupStartShift(gs, k);
      RepeatLength(gs[0].0, gs[0].1);
      assert Flatten(gs) == Repeat(gs[0].0, gs[0].1) + Flatten(gs[1..]);
    }
  }

  lemma {:induction false} GroupStartShift(gs: seq<(nat, nat)>, k: nat)
    requires 0 < k <= |gs|
    ensures GroupStart(gs, k) == gs[0].1 + GroupStart(gs[1..], k - 1)
  {
    if k > 1 {
      GroupStartShift(gs, k - 1);
    }
  }

  lemma {:induction false} RepeatLength(v: nat, n: nat)
    ensures |Repeat(v, n)| == n
  {
    if n > 0 {
      RepeatLength(v, n - 1);
    }
  }

  /** In sorted digits, a later digit equal to the first means the first
      group reaches past it. */
  lemma {:induction false} FirstGroupCovers(xs: seq<nat>, i: nat)
    requires Sorted(xs) && 0 < i < |xs| && xs[i] == xs[0]
    ensures Groups(xs)[0].1 > i
  {
    assert xs[1] == xs[0];
    var g := Groups(xs[1..]);
    if i > 1 {
      assert Sorted(xs[1..]) by {
        forall a, b | 0 <= a < b < |xs[1..]|
          ensures xs[1..][a] >= xs[1..][b]
        {
          assert xs[1..][a] == xs[a + 1];
        }
      }
      assert xs[1..][i - 1] == xs[i];
      FirstGroupCovers(xs[1..], i - 1);
    }
  }

  /** For sorted digits, the groups of the equal pairs are the digit
      groups of size at least 2, each one shorter. */
  lemma {:induction false} EqualPairGroups(xs: seq<nat>)
    requires AllNonIncreasing(xs)
    ensures Groups(EqualPairs(xs)) == Shrunk(Groups(xs))
  {
    if |xs| >= 2 {
      var ys := xs[1..];
      EqualPairGroups(ys);
      var g := Groups(ys);
      var e := EqualPairs(ys);
      if xs[1] == xs[0] {
        assert Groups(xs) == [(xs[0], g[0].1 + 1)] + g[1..];
        assert EqualPairs(xs) == [xs[0]] + e;
        GroupsCons(xs[0], e);
        LaterGroupsSmaller(ys);
        RepeatedDigitStep(xs[0], g);
      } else {
        assert Groups(xs) == [(xs[0], 1)] + g;
        assert EqualPairs(xs) == e;
        ShrunkCons((xs[0], 1), g);
      }
    }
  }

  /** Prepending a digit equal to the first group's value: shrinking
      the lengthened group gives what prepending the digit to the
      shrunk groups gives. */
  lemma RepeatedDigitStep(x: nat, g: seq<(nat, nat)>)
    requires |g| > 0 && g[0].0 == x && g[0].1 >= 1
    requires forall k :: 1 <= k < |g| ==> g[k].0 < x
    ensures var p := Shrunk(g);
      (if |p| > 0 && p[0].0 == x then [(x, p[0].1 + 1)] + p[1..] else [(x, 1)] + p)
      == Shrunk([(x, g[0].1 + 1)] + g[1..])
  {
    var rest := Shrunk(g[1..]);
    ShrunkCons((x, g[0].1 + 1), g[1..]);
    if g[0].1 == 1 {
      ShrunkValues(g[1..], x);
      assert Shrunk(g) == rest;
    } else {
      var p := Shrunk(g);
      assert p == [(x, g[0].1 - 1)] + rest;
      assert p[1..] == rest;
    }
  }

  lemma GroupsCons(x: nat, rest: seq<nat>)
    ensures var g := Groups(rest);
      Groups([x] + rest) == if |g| > 0 && g[0].0 == x then [(x, g[0].1 + 1)] + g[1..] else [(x, 1)] + g
  {
    assert ([x] + rest)[1..] == rest;
  }

  /** One step of `Shrunk`. */
  lemma ShrunkCons(h: (nat, nat), gs: seq<(nat, nat)>)
    ensures Shrunk([h] + gs) == if h.1 >= 2 then [(h.0, h.1 - 1)] + Shrunk(gs) else Shrunk(gs)
  {
    assert ([h] + gs)[1..] == gs;
  }

  lemma {:induction false} ShrunkHasPair(gs: seq<(nat, nat)>)
    ensures (exists k :: 0 <= k < |Shrunk(gs)| && Shrunk(gs)[k].1 == 1) <==> exists k :: 0 <= k < |gs| && gs[k].1 == 2
  {
    if |gs| > 0 {
      ShrunkHasPair(gs[1..]);
      var s := Shrunk(gs);
      if exists k :: 0 <= k < |gs| && gs[k].1 == 2 {
        var k :| 0 <= k < |gs| && gs[k].1 == 2;
        if k > 0 {
          assert gs[1..][k - 1] == gs[k];
          var j :| 0 <= j < |Shrunk(gs[1..])| && Shrunk(gs[1..])[j].1 == 1;
          if gs[0].1 >= 2 {
            assert s[j + 1] == Shrunk(gs[1..])[j];
          }
        } else {
          assert s[0].1 == 1;
        }
      }
      if exists k :: 0 <= k < |s| && s[k].1 == 1 {
        var k :| 0 <= k < |s| && s[k].1 == 1;
        if gs[0].1 >= 2 && k == 0 {
          assert gs[0].1 == 2;
        } else if gs[0].1 >= 2 {
          assert s[k] == Shrunk(gs[1..])[k - 1];
          var j :| 0 <= j < |gs[1..]| && gs[1..][j].1 == 2;
          assert gs[j + 1].1 == 2;
        } else {
          var j :| 0 <= j < |gs[1..]| && gs[1..][j].1 == 2;
          assert gs[j + 1].1 == 2;
        }
      }
    }
  }

  /** For digits that never decrease, the part-two test holds exactly when
      some maximal run of equal digits has length exactly 2. */
  lemma {:induction false} MultiDigitMeansRunOfTwo(num: nat)
    requires OnlyIncreasing(num)
    ensures HasMultiDigit(num) <==> exists k :: 0 <= k < |Groups(Digits(num))| && Groups(Digits(num))[k].1 == 2
  {
    var ds := Digits(num);
    var gs := Groups(ds);
    var ps := Groups(EqualPairs(ds));
    assert AllNonIncreasing(ds);
    RunOfTwo(ds);
    assert HasMultiDigit(num) == exists k :: 0 <= k < |ps| && ps[k].1 + 1 == 2;
    if HasMultiDigit(num) {
      var k :| 0 <= k < |ps| && ps[k].1 + 1 == 2;
      var j :| 0 <= j < |gs| && gs[j].1 == 2;
      assert Groups(Digits(num))[j].1 == 2;
    }
    if exists j :: 0 <= j < |gs| && gs[j].1 == 2 {
      var k :| 0 <= k < |ps| && ps[k].1 + 1 == 2;
      assert HasMultiDigit(num);
    }
  }

  /** The statement above for any digits that never increase. */
  lemma {:induction false} RunOfTwo(ds: seq<nat>)
    requires AllNonIncreasing(ds)
    ensures (exists k :: 0 <= k < |Groups(EqualPairs(ds))| && Groups(EqualPairs(ds))[k].1 + 1 == 2)
        <==> exists k :: 0 <= k < |Groups(ds)| && Groups(ds)[k].1 == 2
  {
    var gs := Groups(ds);
    var ps := Groups(EqualPairs(ds));
    EqualPairGroups(ds);
    assert ps == Shrunk(gs);
    ShrunkHasPair(gs);
    if exists k :: 0 <= k < |ps| && ps[k].1 + 1 == 2 {
      var k :| 0 <= k < |ps| && ps[k].1 + 1 == 2;
      assert Shrunk(gs)[k].1 == 1;
    }
    if exists j :: 0 <= j < |gs| && gs[j].1 == 2 {
      var k :| 0 <= k < |Shrunk(gs)| && Shrunk(gs)[k].1 == 1;
      assert ps[k].1 + 1 == 2;
    }
  }

  lemma {:induction false} EqualPairsFound(ds: seq<nat>)
    ensures |EqualPairs(ds)| > 0 <==> AnyEqualNeighbours(ds)
  {
    if |ds| >= 2 {
      EqualPairsFound(ds[1..]);
    }
  }

  /** The part-two test is stronger than the part-one test. */
  lemma MultiImpliesDouble(num: nat)
    ensures HasMultiDigit(num) ==> HasDoubleDigit(num)
  {
    EqualPairsFound(Digits(num));
  }

  // ---------------------------------------------------------------------
  // Counting

  function Part1Test(n: nat): bool {
    OnlyIncreasing(n) && HasDoubleDigit(n)
  }

  function Part2Test(n: nat): bool {
    OnlyIncreasing(n) && HasMultiDigit(n)
  }

  /** How many numbers in [lo, hi) pass `test`. */
  function CountIn(lo: nat, hi: nat, test: nat -> bool): nat
    decreases hi - lo
  {
    if lo >= hi then 0 else (if test(lo) then 1 else 0) + CountIn(lo + 1, hi, test)
  }

  lemma {:induction false} CountInSnoc(lo: nat, hi: nat, test: nat -> bool)
    requires lo <= hi
    ensures CountIn(lo, hi + 1, test) == CountIn(lo, hi, test) + (if test(hi) then 1 else 0)
    decreases hi - lo
  {
    if lo < hi {
      CountInSnoc(lo + 1, hi, test);
    }
  }

  /** Counting with a stronger test never gives more. */
  lemma {:induction false} CountInMono(lo: nat, hi: nat, strong: nat -> bool, weak: nat -> bool)
    requires forall n :: lo <= n < hi && strong(n) ==> weak(n)
    ensures CountIn(lo, hi, strong) <= CountIn(lo, hi, weak)
    decreases hi - lo
  {
    if lo < hi {
      CountInMono(lo + 1, hi, strong, weak);
    }
  }

  /** Counts the numbers of [lo, hi) that pass `test`. */
  method Count(lo: nat, hi: nat, test: nat -> bool) returns (count: nat)
    requires lo <= hi
    ensures count == CountIn(lo, hi, test)
  {
    count := 0;
    for n := lo to hi
      invariant count == CountIn(lo, n, test)
    {
      CountInSnoc(lo, n, test);
      if test(n) {
        count := count + 1;
      }
    }
  }

  method PartOne() returns (count: nat)
    ensures count == CountIn(StartN, EndN, Part1Test)
  {
    count := Count(StartN, EndN, Part1Test);
  }

  method PartTwo() returns (count: nat)
    ensures count == CountIn(StartN, EndN, Part2Test)
  {
    count := Count(StartN, EndN, Part2Test);
  }

  /** Part two never counts more than part one. */
  lemma PartTwoAtMostPartOne()
    ensures CountIn(StartN, EndN, Part2Test) <= CountIn(StartN, EndN, Part1Test)
  {
    forall n | StartN <= n < EndN && Part2Test(n)
      ensures Part1Test(n)
    {
      MultiImpliesDouble(n);
    }
    CountInMono(StartN, EndN, Part2Test, Part1Test);
  }
}
