/** Day 12 (day_12/src/main.rs): moons that pull on each other one axis at
    a time. Positions and velocities are values; the system's list of moons
    is updated in place by `step`, one pair of moons at a time. */
module Day12 {
  import opened Common
  import opened Text

  datatype Coord = X | Y | Z

  datatype Vec3 = Vec3(x: int, y: int, z: int) {
    /** The component on axis `c`. */
    function At(c: Coord): int {
      match c
      case X => x
      case Y => y
      case Z => z
    }

    /** This vector with the component on axis `c` replaced by `v`. */
    function With(c: Coord, v: int): (r: Vec3)
      ensures r.At(c) == v
      ensures forall d :: d != c ==> r.At(d) == At(d)
    {
      match c
      case X => this.(x := v)
      case Y => this.(y := v)
      case Z => this.(z := v)
    }
  }

  /** `Vec3::new`. */
  const Origin := Vec3(0, 0, 0)

  /** `absolute_sum`: the sum of the components' magnitudes, zero only for
      the zero vector. */
  function AbsoluteSum(v: Vec3): (r: nat)
    ensures r == 0 <==> v == Origin
    ensures r >= Abs(v.x) && r >= Abs(v.y) && r >= Abs(v.z)
  {
    Abs(v.x) + Abs(v.y) + Abs(v.z)
  }

  /** `apply_gravity_from_position`: the unit step from `other` toward
      `coord`, 0 when they coincide. */
  function GravityFromPosition(coord: int, other: int): (r: int)
    ensures r == 1 <==> coord > other
    ensures r == -1 <==> coord < other
    ensures r == 0 <==> coord == other
  {
    if coord > other then 1 else if coord < other then -1 else 0
  }

  datatype Moon = Moon(position: Vec3, velocity: Vec3)

  /** `Moon::new`: at the origin, at rest. */
  const Still := Moon(Origin, Origin)

  /** The pull of `other` on `self` along `c`, added to `self`'s velocity. */
  function Pulled(self: Moon, c: Coord, other: Moon): Moon {
    var v := self.velocity.At(c) + GravityFromPosition(other.position.At(c), self.position.At(c));
    self.(velocity := self.velocity.With(c, v))
  }

  /** `exert_gravity_on`: `self` is pulled toward `other`, then (unless this
      is already the return call) `other` toward `self`. The pair is
      returned in the order (self, other). */
  function ExertGravityOn(self: Moon, c: Coord, other: Moon, back: bool): (r: (Moon, Moon))
    decreases if back then 0 else 1
  {
    var pulled := Pulled(self, c, other);
    if back then (pulled, other)
    else
      var returned := ExertGravityOn(other, c, pulled, true);
      (returned.1, returned.0)
  }

  /** `apply_gravity`: each moon's velocity along `c` moves one unit toward
      the other moon (or stays when they are level); the two changes cancel,
      and nothing else about either moon changes. */
  function ApplyGravity(a: Moon, c: Coord, b: Moon): (r: (Moon, Moon))
    ensures r.0.position == a.position && r.1.position == b.position
    ensures forall d :: d != c ==> r.0.velocity.At(d) == a.velocity.At(d) && r.1.velocity.At(d) == b.velocity.At(d)
    ensures var pa, pb := a.position.At(c), b.position.At(c);
      r.0.velocity.At(c) == a.velocity.At(c) + (if pa < pb then 1 else if pa > pb then -1 else 0)
    ensures r.0.velocity.At(c) + r.1.velocity.At(c) == a.velocity.At(c) + b.velocity.At(c)
  {
    ExertGravityOn(a, c, b, false)
  }

  /** `apply_velocity`: the position along `c` moves by the velocity along
      `c`; the velocity and the other coordinates stay. */
  function ApplyVelocity(m: Moon, c: Coord): (r: Moon)
    ensures r.velocity == m.velocity
    ensures r.position.At(c) == m.position.At(c) + m.velocity.At(c)
    ensures forall d :: d != c ==> r.position.At(d) == m.position.At(d)
  {
    m.(position := m.position.With(c, m.position.At(c) + m.velocity.At(c)))
  }

  function PotentialEnergy(m: Moon): nat {
    AbsoluteSum(m.position)
  }

  function KineticEnergy(m: Moon): nat {
    AbsoluteSum(m.velocity)
  }

  /** `Moon::total_energy`: potential times kinetic energy; zero exactly
      when the moon is at the origin or at rest. */
  function MoonEnergy(m: Moon): (r: nat)
    ensures r == 0 <==> m.position == Origin || m.velocity == Origin
  {
    ProductZero(PotentialEnergy(m), KineticEnergy(m));
    PotentialEnergy(m) * KineticEnergy(m)
  }

  lemma ProductZero(a: nat, b: nat)
    ensures a * b == 0 <==> a == 0 || b == 0
  {
    if a > 0 && b > 0 {
      assert a * b >= b by {
        assert a * b == (a - 1) * b + b;
      }
    }
  }

  // ---------------------------------------------------------------------
  // One step along an axis, as a function of the moons before it

  /** The summed pull along `c` of moons `0..k` on moon `m`. A moon does
      not pull on itself, since it is level with itself. */
  function Pull(moons: seq<Moon>, c: Coord, m: nat, k: nat): int
    requires m < |moons| && k <= |moons|
    decreases k
  {
    if k == 0 then 0
    else Pull(moons, c, m, k - 1) + GravityFromPosition(moons[k - 1].position.At(c), moons[m].position.At(c))
  }

  /** Moon `i` after `step(c)`: its velocity along `c` gains the pull of
      every moon, then its position along `c` moves by the new velocity;
      the other axes are untouched. */
  function Stepped(moons: seq<Moon>, c: Coord, i: nat): (r: Moon)
    requires i < |moons|
    ensures r.velocity.At(c) == moons[i].velocity.At(c) + Pull(moons, c, i, |moons|)
    ensures r.position.At(c) == moons[i].position.At(c) + r.velocity.At(c)
    ensures forall d :: d != c ==> r.position.At(d) == moons[i].position.At(d) && r.velocity.At(d) == moons[i].velocity.At(d)
  {
    var m := moons[i];
    var v := m.velocity.At(c) + Pull(moons, c, i, |moons|);
    Moon(m.position.With(c, m.position.At(c) + v), m.velocity.With(c, v))
  }

  function StepSpec(moons: seq<Moon>, c: Coord): (r: seq<Moon>)
    ensures |r| == |moons|
    ensures forall i :: 0 <= i < |moons| ==> r[i] == Stepped(moons, c, i)
  {
    seq(|moons|, i requires 0 <= i < |moons| => Stepped(moons, c, i))
  }

  /** `step_all`: along X, then Y, then Z. */
  function StepAllSpec(moons: seq<Moon>): (r: seq<Moon>)
    ensures |r| == |moons|
  {
    StepSpec(StepSpec(StepSpec(moons, X), Y), Z)
  }

  function StepAllTimes(moons: seq<Moon>, n: nat): (r: seq<Moon>)
    ensures |r| == |moons|
    decreases n
  {
    if n == 0 then moons else StepAllTimes(StepAllSpec(moons), n - 1)
  }

  // ---------------------------------------------------------------------
  // Momentum along an axis is conserved

  /** The sum of the velocities along `c` of moons `0..k`. */
  function Momentum(moons: seq<Moon>, c: Coord, k: nat): int
    requires k <= |moons|
  {
    if k == 0 then 0 else Momentum(moons, c, k - 1) + moons[k - 1].velocity.At(c)
  }

  /** The summed pulls `Pull(moons, c, m, lim)` over moons `m` in `0..k`. */
  function TotalPull(moons: seq<Moon>, c: Coord, k: nat, lim: nat): int
    requires k <= |moons| && lim <= |moons|
  {
    if k == 0 then 0 else TotalPull(moons, c, k - 1, lim) + Pull(moons, c, k - 1, lim)
  }

  /** The pulls of moon `j` on moons `0..k`. */
  function Cross(moons: seq<Moon>, c: Coord, j: nat, k: nat): int
    requires j < |moons| && k <= |moons|
  {
    if k == 0 then 0
    else Cross(moons, c, j, k - 1) + GravityFromPosition(moons[j].position.At(c), moons[k - 1].position.At(c))
  }

  /** What moons `0..k` pull on moon `j` is the negation of what `j`
      pulls on them. */
  lemma {:induction false} PullIsCross(moons: seq<Moon>, c: Coord, j: nat, k: nat)
    requires j < |moons| && k <= |moons|
    ensures Pull(moons, c, j, k) == -Cross(moons, c, j, k)
  {
    if k > 0 {
      PullIsCross(moons, c, j, k - 1);
    }
  }

  /** Letting one more moon pull adds its pulls on moons `0..k`. */
  lemma {:induction false} TotalPullExtend(moons: seq<Moon>, c: Coord, k: nat, lim: nat)
    requires k <= |moons| && lim < |moons|
    ensures TotalPull(moons, c, k, lim + 1) == TotalPull(moons, c, k, lim) + Cross(moons, c, lim, k)
  {
    if k > 0 {
      TotalPullExtend(moons, c, k - 1, lim);
    }
  }

  /** Within moons `0..n` every pull is matched by an equal and opposite
      one, so the pulls sum to zero. */
  lemma {:induction false} PullsCancel(moons: seq<Moon>, c: Coord, n: nat)
    requires n <= |moons|
    ensures TotalPull(moons, c, n, n) == 0
  {
    if n > 0 {
      var k := n - 1;
      PullsCancel(moons, c, k);
      TotalPullExtend(moons, c, k, k);
      PullIsCross(moons, c, k, k);
    }
  }

  lemma {:induction false} MomentumGains(moons: seq<Moon>, c: Coord, k: nat)
    requires k <= |moons|
    ensures Momentum(StepSpec(moons, c), c, k) == Momentum(moons, c, k) + TotalPull(moons, c, k, |moons|)
  {
    if k > 0 {
      MomentumGains(moons, c, k - 1);
    }
  }

  /** A step along `c` leaves the moons' total velocity along `c`
      unchanged: gravity moves the moons of each pair toward each other by
      the same amount. */
  lemma StepKeepsMomentum(moons: seq<Moon>, c: Coord)
    ensures Momentum(StepSpec(moons, c), c, |moons|) == Momentum(moons, c, |moons|)
  {
    MomentumGains(moons, c, |moons|);
    PullsCancel(moons, c, |moons|);
  }

  // ---------------------------------------------------------------------
  // Energies and rest

  /** Each moon's `total_energy`, in order. */
  function Energies(moons: seq<Moon>): (r: seq<nat>)
    ensures |r| == |moons| && forall i :: 0 <= i < |moons| ==> r[i] == MoonEnergy(moons[i])
  {
    seq(|moons|, i requires 0 <= i < |moons| => MoonEnergy(moons[i]))
  }

  function Sum(xs: seq<nat>): nat {
    if xs == [] then 0 else Sum(xs[..|xs| - 1]) + xs[|xs| - 1]
  }

  /** `System::total_energy`: the sum of the moons' energies. */
  function SystemEnergy(moons: seq<Moon>): nat {
    Sum(Energies(moons))
  }

  /** A sum of naturals is zero exactly when every term is. */
  lemma {:induction false} SumZeroIff(xs: seq<nat>)
    ensures Sum(xs) == 0 <==> forall i :: 0 <= i < |xs| ==> xs[i] == 0
  {
    if xs != [] {
      var init := xs[..|xs| - 1];
      SumZeroIff(init);
      assert forall i :: 0 <= i < |init| ==> init[i] == xs[i];
    }
  }

  /** `at_rest`: no moon has kinetic energy left. */
  predicate AllAtRest(moons: seq<Moon>) {
    forall i :: 0 <= i < |moons| ==> KineticEnergy(moons[i]) == 0
  }

  /** The total energy is zero exactly when every moon is at the origin or
      at rest; in particular a system at rest has no energy left. */
  lemma EnergyZeroIff(moons: seq<Moon>)
    ensures SystemEnergy(moons) == 0 <==> forall i :: 0 <= i < |moons| ==> moons[i].position == Origin || moons[i].velocity == Origin
    ensures AllAtRest(moons) ==> SystemEnergy(moons) == 0
  {
    SumZeroIff(Energies(moons));
  }

  // ---------------------------------------------------------------------
  // The system, updated in place

  /** How far the pulls on moon `m` reach once the moons `0..e` have each
      pulled on (and been pulled by) every later moon. */
  function ReachDone(n: nat, m: nat, e: nat): nat {
    if m < e then n else e
  }

  /** How far the pulls on moon `m` reach while the moon at `l` is pulling
      on the moons `l + 1 .. j` (see `System.PullPairsFrom`). */
  function Reach(n: nat, m: nat, l: nat, j: nat): nat {
    if m < l then n else if m == l then j else if m < j then l + 1 else l
  }

  /** Moon `m` with the pulls of moons `0..k` added to its velocity. */
  function PulledUpTo(start: seq<Moon>, c: Coord, m: nat, k: nat): Moon
    requires m < |start| && k <= |start|
  {
    start[m].(velocity := start[m].velocity.With(c, start[m].velocity.At(c) + Pull(start, c, m, k)))
  }

  /** One pull of `PullPairsFrom`: moon `l`, pulled by the moons before
      `j`, and moon `j`, pulled by the moons up to `l`, pull on each other. */
  lemma PairPulled(start: seq<Moon>, c: Coord, l: nat, j: nat)
    requires l < j < |start|
    ensures ApplyGravity(PulledUpTo(start, c, l, j), c, PulledUpTo(start, c, j, l))
         == (PulledUpTo(start, c, l, j + 1), PulledUpTo(start, c, j, l + 1))
  {
    var a, b := PulledUpTo(start, c, l, j), PulledUpTo(start, c, j, l);
    var r := ApplyGravity(a, c, b);
    assert r.0.velocity == PulledUpTo(start, c, l, j + 1).velocity by {
      forall d ensures r.0.velocity.At(d) == PulledUpTo(start, c, l, j + 1).velocity.At(d) { }
    }
    assert r.1.velocity == PulledUpTo(start, c, j, l + 1).velocity by {
      forall d ensures r.1.velocity.At(d) == PulledUpTo(start, c, j, l + 1).velocity.At(d) { }
    }
  }

  class System {
    var moons: seq<Moon>

    constructor (moons: seq<Moon>)
      ensures this.moons == moons
    {
      this.moons := moons;
    }

    /** `step(c)`: gravity between every pair, then velocity. */
    method Step(c: Coord)
      modifies this
      ensures moons == StepSpec(old(moons), c)
    {
      PullAllPairs(c);
      MoveAll(c, old(moons));
    }

    /** The first loop of `step`: for each `i`, the moon just before `i`
        (`left.last_mut()`) and each moon from `i` on pull on each other. */
    method PullAllPairs(c: Coord)
      modifies this
      ensures |moons| == |old(moons)|
      ensures forall m :: 0 <= m < |moons| ==> moons[m] == PulledUpTo(old(moons), c, m, |moons|)
    {
      ghost var start := moons;
      var n := |moons|;
      var i := 0;
      while i < n
        invariant 0 <= i <= n == |moons| == |start|
        invariant forall m :: 0 <= m < n ==> moons[m] == PulledUpTo(start, c, m, ReachDone(n, m, if i == 0 then 0 else i - 1))
      {
        if i > 0 {
          PullPairsFrom(start, c, i - 1);
        }
        i := i + 1;
      }
      forall m | 0 <= m < n
        ensures moons[m] == PulledUpTo(start, c, m, n)
      {
        if m == n - 1 {
          assert Pull(start, c, m, n) == Pull(start, c, m, n - 1);
        }
      }
    }

    /** One pass of the outer loop: the moon at `l` and each later moon
        pull on each other, in order. */
    method PullPairsFrom(ghost start: seq<Moon>, c: Coord, l: nat)
      requires l < |moons| == |start|
      requires forall m :: 0 <= m < |start| ==> moons[m] == PulledUpTo(start, c, m, ReachDone(|start|, m, l))
      modifies this
      ensures |moons| == |start|
      ensures forall m :: 0 <= m < |start| ==> moons[m] == PulledUpTo(start, c, m, ReachDone(|start|, m, l + 1))
    {
      var n := |moons|;
      assert Pull(start, c, l, l + 1) == Pull(start, c, l, l);
      var j := l + 1;
      while j < n
        invariant l + 1 <= j <= n == |moons|
        invariant forall m :: 0 <= m < n ==> moons[m] == PulledUpTo(start, c, m, Reach(n, m, l, j))
      {
        PairPulled(start, c, l, j);
        var pair := ApplyGravity(moons[l], c, moons[j]);
        ghost var before := moons;
        moons := moons[l := pair.0][j := pair.1];
        forall m | 0 <= m < n
          ensures moons[m] == PulledUpTo(start, c, m, Reach(n, m, l, j + 1))
        {
          if m != l && m != j {
            assert moons[m] == before[m] && Reach(n, m, l, j + 1) == Reach(n, m, l, j);
          }
        }
        j := j + 1;
      }
    }

    /** The second loop of `step`: every moon moves along `c`. */
    method MoveAll(c: Coord, ghost start: seq<Moon>)
      requires |moons| == |start|
      requires forall m :: 0 <= m < |moons| ==> moons[m] == PulledUpTo(start, c, m, |start|)
      modifies this
      ensures moons == StepSpec(start, c)
    {
      var k := 0;
      while k < |moons|
        invariant 0 <= k <= |moons| == |start|
        invariant forall m :: 0 <= m < k ==> moons[m] == Stepped(start, c, m)
        invariant forall m :: k <= m < |moons| ==> moons[m] == PulledUpTo(start, c, m, |start|)
      {
        moons := moons[k := ApplyVelocity(moons[k], c)];
        k := k + 1;
      }
    }

    /** `step_all`. */
    method StepAll()
      modifies this
      ensures moons == StepAllSpec(old(moons))
    {
      Step(X);
      Step(Y);
      Step(Z);
    }

    /** `at_rest`: true exactly when every velocity is zero. */
    function AtRest(): (r: bool)
      reads this
      ensures r <==> forall i :: 0 <= i < |moons| ==> moons[i].velocity == Origin
    {
      AllAtRest(moons)
    }

    /** `total_energy`: zero for a system at rest. */
    function TotalEnergy(): (r: nat)
      reads this
      ensures r == SystemEnergy(moons)
      ensures AtRest() ==> r == 0
    {
      EnergyZeroIff(moons);
      SystemEnergy(moons)
    }
  }

  /** `part1`: a thousand calls of `step_all`, then the total energy. */
  method Part1(system: System) returns (r: nat)
    modifies system
    ensures system.moons == StepAllTimes(old(system.moons), 1000)
    ensures r == SystemEnergy(system.moons)
  {
    var i := 0;
    while i < 1000
      invariant 0 <= i <= 1000
      invariant StepAllTimes(system.moons, 1000 - i) == StepAllTimes(old(system.moons), 1000)
    {
      system.StepAll();
      i := i + 1;
    }
    r := system.TotalEnergy();
  }

  // ---------------------------------------------------------------------
  // Parsing "<x=a, y=b, z=c>"

  /** `trim_start_matches(ch)`: drops every leading `ch`. */
  function TrimStartMatches(s: string, ch: char): (r: string)
    ensures |r| <= |s| && r == s[|s| - |r|..]
    ensures |r| > 0 ==> r[0] != ch
    ensures forall i :: 0 <= i < |s| - |r| ==> s[i] == ch
  {
    if |s| > 0 && s[0] == ch then TrimStartMatches(s[1..], ch) else s
  }

  /** `trim_end_matches(ch)`: drops every trailing `ch`. */
  function TrimEndMatches(s: string, ch: char): (r: string)
    ensures |r| <= |s| && r == s[..|r|]
    ensures |r| > 0 ==> r[|r| - 1] != ch
    ensures forall i :: |r| <= i < |s| ==> s[i] == ch
  {
    if |s| > 0 && s[|s| - 1] == ch then TrimEndMatches(s[..|s| - 1], ch) else s
  }

  /** `split(", ")`: the pieces between the non-overlapping occurrences of
      ", ", found from the left. */
  function SplitDecls(s: string): (r: seq<string>)
    ensures |r| >= 1
    decreases |s|
  {
    if |s| >= 2 && s[..2] == ", " then [""] + SplitDecls(s[2..])
    else if |s| == 0 then [""]
    else
      var rest := SplitDecls(s[1..]);
      [[s[0]] + rest[0]] + rest[1..]
  }

  /** Why a line is not a moon: a declaration with no `=` (`malformed
      input`) or a value that is not an i32. */
  datatype ParseError = MalformedInput | ParseIntError(text: string)

  /** A parse that succeeds, fails with an error, or panics on a key other
      than x, y or z. */
  datatype Parse<T> = Parsed(value: T) | Failed(error: ParseError) | UnexpectedCoordinate(key: string)

  /** `read_decl`: the piece after the key, parsed as an i32. Pieces
      after that one are ignored. */
  function ReadDecl(pieces: seq<string>): (r: Result<int, ParseError>)
    ensures |pieces| == 0 <==> r == Err(MalformedInput)
    ensures r.Ok? ==> IsI32(r.value) && ParseInt(pieces[0], true, I32_MIN, I32_MAX) == Some(r.value)
    ensures |pieces| > 0 && r.Err? ==>
      r.error == ParseIntError(pieces[0]) && ParseInt(pieces[0], true, I32_MIN, I32_MAX).None?
  {
    if |pieces| == 0 then Err(MalformedInput)
    else
      match ParseInt(pieces[0], true, I32_MIN, I32_MAX)
      case None => Err(ParseIntError(pieces[0]))
      case Some(v) => Ok(v)
  }

  /** The coordinate a declaration's key names: exactly "x", "y" and "z"
      name one. */
  function KeyAxis(key: string): (r: Option<Coord>)
    ensures r.Some? <==> key == "x" || key == "y" || key == "z"
    ensures r == Some(X) <==> key == "x"
    ensures r == Some(Y) <==> key == "y"
  {
    if key == "x" then Some(X)
    else if key == "y" then Some(Y)
    else if key == "z" then Some(Z)
    else None
  }

  /** One turn of the loop of `parse_from_str`: the key before the first
      `=` picks the coordinate the value after it is stored in. An unknown
      key panics, a key with nothing after it is malformed input and a
      value that is not an i32 is a parse error; otherwise only that
      coordinate changes, to the value written. */
  function Declare(m: Moon, decl: string): (r: Parse<Moon>)
    ensures var pieces := Split(decl, '=');
      && (r.UnexpectedCoordinate? <==> KeyAxis(pieces[0]).None?)
      && (r.UnexpectedCoordinate? ==> r.key == pieces[0])
      && (r == Failed(MalformedInput) <==> KeyAxis(pieces[0]).Some? && |pieces| == 1)
      && (r.Failed? && r.error.ParseIntError? <==>
            KeyAxis(pieces[0]).Some? && |pieces| >= 2 && ParseInt(pieces[1], true, I32_MIN, I32_MAX).None?)
      && (r.Failed? && r.error.ParseIntError? ==> r.error.text == pieces[1])
      && (r.Parsed? ==>
            && KeyAxis(pieces[0]).Some? && |pieces| >= 2
            && r.value == m.(position := m.position.With(KeyAxis(pieces[0]).value, r.value.position.At(KeyAxis(pieces[0]).value)))
            && ParseInt(pieces[1], true, I32_MIN, I32_MAX) == Some(r.value.position.At(KeyAxis(pieces[0]).value)))
  {
    var pieces := Split(decl, '=');
    match KeyAxis(pieces[0])
    case None => UnexpectedCoordinate(pieces[0])
    case Some(c) =>
      match ReadDecl(pieces[1..])
      case Err(e) => Failed(e)
      case Ok(v) => Parsed(m.(position := m.position.With(c, v)))
  }

  /** The declarations in order, stopping at the first failure or panic. */
  function DeclareAll(m: Moon, decls: seq<string>): (r: Parse<Moon>)
    ensures r.Parsed? ==> r.value.velocity == m.velocity
    decreases |decls|
  {
    if decls == [] then Parsed(m)
    else
      match Declare(m, decls[0])
      case Parsed(m') => DeclareAll(m', decls[1..])
      case Failed(e) => Failed(e)
      case UnexpectedCoordinate(k) => UnexpectedCoordinate(k)
  }

  function Decls(source: string): seq<string> {
    SplitDecls(TrimEndMatches(TrimStartMatches(source, '<'), '>'))
  }

  /** `parse_from_str` as a function of the text. */
  function ParseMoon(source: string): Parse<Moon> {
    DeclareAll(Still, Decls(source))
  }

  /** `parse_from_str`: starts from a still moon at the origin and applies
      each ", "-separated declaration in turn. */
  method ParseFromStr(source: string) returns (r: Parse<Moon>)
    ensures r == ParseMoon(source)
    ensures r.Parsed? ==> r.value.velocity == Origin
  {
    var decls := Decls(source);
    var m := Still;
    var i := 0;
    while i < |decls|
      invariant 0 <= i <= |decls|
      invariant DeclareAll(m, decls[i..]) == DeclareAll(Still, decls)
      invariant m.velocity == Origin
    {
      assert decls[i..][1..] == decls[i + 1..];
      var d := Declare(m, decls[i]);
      match d {
        case Parsed(m') => m := m';
        case Failed(e) => return Failed(e);
        case UnexpectedCoordinate(k) => return UnexpectedCoordinate(k);
      }
      i := i + 1;
    }
    r := Parsed(m);
  }

  /** One declaration as the puzzle input writes it, such as "x=-1". */
  function Decl(key: char, v: int): string {
    [key, '='] + Show(v)
  }

  /** The text of a moon at `p`, as the puzzle input writes it. */
  function Render(p: Vec3): string {
    "<" + (Decl('x', p.x) + ", " + Decl('y', p.y) + ", " + Decl('z', p.z)) + ">"
  }

  predicate NoComma(s: string) {
    forall i :: 0 <= i < |s| ==> s[i] != ','
  }

  lemma {:induction false} SplitDeclsPlain(a: string)
    requires NoComma(a)
    ensures SplitDecls(a) == [a]
    decreases |a|
  {
    if |a| > 0 {
      SplitDeclsPlain(a[1..]);
      assert [a[0]] + a[1..] == a;
    }
  }

  lemma {:induction false} SplitDeclsCons(a: string, b: string)
    requires NoComma(a)
    ensures SplitDecls(a + ", " + b) == [a] + SplitDecls(b)
    decreases |a|
  {
    var s := a + ", " + b;
    if |a| == 0 {
      assert s[..2] == ", " && s[2..] == b;
    } else {
      assert s[0] == a[0] != ',' && s[1..] == a[1..] + ", " + b;
      assert SplitDecls(s) == [[a[0]] + SplitDecls(s[1..])[0]] + SplitDecls(s[1..])[1..];
      SplitDeclsCons(a[1..], b);
      assert [a[0]] + a[1..] == a;
    }
  }

  /** A key and a value free of `=` split back into the two. */
  lemma SplitKeyValue(key: string, value: string)
    requires forall i :: 0 <= i < |key| ==> key[i] != '='
    requires forall i :: 0 <= i < |value| ==> value[i] != '='
    ensures Split(key + "=" + value, '=') == [key, value]
  {
    var parts := [key, value];
    assert Join(parts, '=') == key + "=" + value by {
      assert Join(parts[1..], '=') == value;
    }
    SplitJoin(parts, '=');
  }

  /** A rendered declaration splits at `=` into its key and its value. */
  lemma DeclPieces(key: char, v: int)
    requires key != '='
    ensures Split(Decl(key, v), '=') == [[key], Show(v)]
  {
    SplitKeyValue([key], Show(v));
    assert Decl(key, v) == [key] + "=" + Show(v);
  }

  lemma DeclareRendered(m: Moon, key: char, c: Coord, v: int)
    requires IsI32(v) && key == (match c case X => 'x' case Y => 'y' case Z => 'z')
    ensures Declare(m, Decl(key, v)) == Parsed(m.(position := m.position.With(c, v)))
  {
    var s := Show(v);
    DeclPieces(key, v);
    var pieces := Split(Decl(key, v), '=');
    assert pieces[1..] == [s];
    ShowParses(v, true, I32_MIN, I32_MAX);
    assert ReadDecl(pieces[1..]) == Ok(v);
    match c {
      case X => assert pieces[0] == "x";
      case Y => assert pieces[0] == "y";
      case Z => assert pieces[0] == "z";
    }
  }

  lemma TrimBrackets(inner: string)
    requires |inner| > 0 && inner[0] != '<' && inner[|inner| - 1] != '>'
    ensures TrimEndMatches(TrimStartMatches("<" + inner + ">", '<'), '>') == inner
  {
    var src := "<" + inner + ">";
    assert src[0] == '<';
    assert src[1..] == inner + ">";
    assert TrimStartMatches(inner + ">", '<') == inner + ">";
    assert (inner + ">")[..|inner|] == inner;
  }

  lemma SplitThree(a: string, b: string, c: string)
    requires NoComma(a) && NoComma(b) && NoComma(c)
    ensures SplitDecls(a + ", " + b + ", " + c) == [a, b, c]
  {
    assert a + ", " + b + ", " + c == a + ", " + (b + ", " + c);
    SplitDeclsCons(a, b + ", " + c);
    SplitDeclsCons(b, c);
    SplitDeclsPlain(c);
  }

  /** The declarations of a moon at `p`, as the input writes them. */
  function RenderedDecls(p: Vec3): seq<string> {
    [Decl('x', p.x), Decl('y', p.y), Decl('z', p.z)]
  }

  lemma DeclNoComma(key: char, v: int)
    requires key != ','
    ensures NoComma(Decl(key, v)) && |Decl(key, v)| > 0
    ensures Decl(key, v)[0] == key && Decl(key, v)[|Decl(key, v)| - 1] != '>'
  {
    var s := Show(v);
    assert forall j :: 0 <= j < |s| ==> s[j] != ',';
    assert Decl(key, v)[|Decl(key, v)| - 1] == s[|s| - 1];
  }

  lemma DeclsOfRendered(p: Vec3)
    ensures Decls(Render(p)) == RenderedDecls(p)
  {
    var dx, dy, dz := Decl('x', p.x), Decl('y', p.y), Decl('z', p.z);
    DeclNoComma('x', p.x);
    DeclNoComma('y', p.y);
    DeclNoComma('z', p.z);
    var inner := dx + ", " + dy + ", " + dz;
    assert inner[0] == dx[0] && inner[|inner| - 1] == dz[|dz| - 1];
    TrimBrackets(inner);
    SplitThree(dx, dy, dz);
  }

  lemma DeclareAllRendered(p: Vec3)
    requires IsI32(p.x) && IsI32(p.y) && IsI32(p.z)
    ensures DeclareAll(Still, RenderedDecls(p)) == Parsed(Moon(p, Origin))
  {
    var ds := RenderedDecls(p);
    var m1 := Still.(position := Origin.With(X, p.x));
    var m2 := m1.(position := m1.position.With(Y, p.y));
    var m3 := m2.(position := m2.position.With(Z, p.z));
    DeclareRendered(Still, 'x', X, p.x);
    DeclareRendered(m1, 'y', Y, p.y);
    DeclareRendered(m2, 'z', Z, p.z);
    assert ds[2..][1..] == [];
    assert DeclareAll(m2, ds[2..]) == Parsed(m3);
    assert DeclareAll(m1, ds[1..]) == Parsed(m3) by {
      assert ds[1..][1..] == ds[2..];
    }
    assert m3 == Moon(p, Origin);
  }

  /** Parsing the text of a moon at `p` gives that moon, at rest: the
      parser and the input format agree. */
  lemma ParseRendered(p: Vec3)
    requires IsI32(p.x) && IsI32(p.y) && IsI32(p.z)
    ensures ParseMoon(Render(p)) == Parsed(Moon(p, Origin))
  {
    DeclsOfRendered(p);
    DeclareAllRendered(p);
  }

  /** The failure a failed line passes on to the whole system. */
  function FailureOf(p: Parse<Moon>): Parse<seq<Moon>>
    requires !p.Parsed?
  {
    if p.Failed? then Failed(p.error) else UnexpectedCoordinate(p.key)
  }

  /** `process_results` over parsed lines: every value in order, or the
      first failure (or panic) met. */
  function CollectMoons(results: seq<Parse<Moon>>): (r: Parse<seq<Moon>>)
    ensures r.Parsed? <==> forall i :: 0 <= i < |results| ==> results[i].Parsed?
    ensures r.Parsed? ==> |r.value| == |results| && forall i :: 0 <= i < |results| ==> results[i] == Parsed(r.value[i])
    ensures !r.Parsed? ==> exists k :: 0 <= k < |results| && !results[k].Parsed? && r == FailureOf(results[k])
                                      && forall i :: 0 <= i < k ==> results[i].Parsed?
  {
    if results == [] then Parsed([])
    else if !results[0].Parsed? then FailureOf(results[0])
    else
      var rest := CollectMoons(results[1..]);
      if rest.Parsed? then Parsed([results[0].value] + rest.value)
      else
        assert exists k :: 0 <= k < |results[1..]| && !results[1..][k].Parsed? && rest == FailureOf(results[1..][k])
                           && forall i :: 0 <= i < k ==> results[1..][i].Parsed?;
        var k :| 0 <= k < |results[1..]| && !results[1..][k].Parsed? && rest == FailureOf(results[1..][k])
                 && forall i :: 0 <= i < k ==> results[1..][i].Parsed?;
        assert forall i :: 0 <= i < k + 1 ==> results[i].Parsed? by {
          forall i | 0 <= i < k + 1 ensures results[i].Parsed? {
            if i > 0 { assert results[i] == results[1..][i - 1]; }
          }
        }
        assert results[k + 1] == results[1..][k];
        rest
  }

  /** `line_iter.map(Moon::parse_from_str)`: each line's parse, in order. */
  function MoonsOf(lines: seq<string>): (r: seq<Parse<Moon>>)
    ensures |r| == |lines| && forall i :: 0 <= i < |lines| ==> r[i] == ParseMoon(lines[i])
  {
    if lines == [] then [] else [ParseMoon(lines[0])] + MoonsOf(lines[1..])
  }

  /** `System::from_reader`: every line parsed, in order; the first
      failure (or panic) ends the parse. */
  function ParseSystem(lines: seq<string>): (r: Parse<seq<Moon>>)
    ensures r.Parsed? <==> forall i :: 0 <= i < |lines| ==> ParseMoon(lines[i]).Parsed?
    ensures r.Parsed? ==> |r.value| == |lines|
    ensures r.Parsed? ==> forall i :: 0 <= i < |lines| ==> ParseMoon(lines[i]) == Parsed(r.value[i])
    ensures !r.Parsed? ==> exists k :: 0 <= k < |lines| && !ParseMoon(lines[k]).Parsed? && r == FailureOf(ParseMoon(lines[k]))
                                      && forall i :: 0 <= i < k ==> ParseMoon(lines[i]).Parsed?
  {
    CollectMoons(MoonsOf(lines))
  }

  /** One line per position, each as the puzzle input writes it. */
  function RenderedSystem(ps: seq<Vec3>): (r: seq<string>)
    ensures |r| == |ps| && forall i :: 0 <= i < |ps| ==> r[i] == Render(ps[i])
  {
    if ps == [] then [] else [Render(ps[0])] + RenderedSystem(ps[1..])
  }

  /** A moon at rest at each position. */
  function StillAt(ps: seq<Vec3>): (r: seq<Moon>)
    ensures |r| == |ps| && forall i :: 0 <= i < |ps| ==> r[i] == Moon(ps[i], Origin)
  {
    if ps == [] then [] else [Moon(ps[0], Origin)] + StillAt(ps[1..])
  }

  /** Reading back the rendered lines of a system gives its moons, at rest. */
  lemma SystemRendered(ps: seq<Vec3>)
    requires forall i :: 0 <= i < |ps| ==> IsI32(ps[i].x) && IsI32(ps[i].y) && IsI32(ps[i].z)
    ensures ParseSystem(RenderedSystem(ps)) == Parsed(StillAt(ps))
  {
    var lines := RenderedSystem(ps);
    forall i | 0 <= i < |ps| ensures ParseMoon(lines[i]) == Parsed(Moon(ps[i], Origin)) {
      ParseRendered(ps[i]);
    }
    var r := ParseSystem(lines);
    assert r.Parsed?;
    assert r.value == StillAt(ps);
  }

  // ---------------------------------------------------------------------
  // The four-moon example

  function M(px: int, py: int, pz: int, vx: int, vy: int, vz: int): Moon {
    Moon(Vec3(px, py, pz), Vec3(vx, vy, vz))
  }

  const ExampleStart: seq<Moon> := [M(-1, 0, 2, 0, 0, 0), M(2, -10, -7, 0, 0, 0), M(4, -8, 8, 0, 0, 0), M(3, 5, -1, 0, 0, 0)]

  /** The text of a moon spelled out from the texts of its coordinates. */
  lemma RenderSpelled(p: Vec3, sx: string, sy: string, sz: string)
    requires Show(p.x) == sx && Show(p.y) == sy && Show(p.z) == sz
    ensures Render(p) == "<x=" + sx + ", y=" + sy + ", z=" + sz + ">"
  {
  }

  lemma ExampleLine1() ensures Render(Vec3(-1, 0, 2)) == "<x=-1, y=0, z=2>" {
    RenderSpelled(Vec3(-1, 0, 2), "-1", "0", "2");
  }

  lemma ExampleLine2() ensures Render(Vec3(2, -10, -7)) == "<x=2, y=-10, z=-7>" {
    assert ShowNat(10) == "10";
    RenderSpelled(Vec3(2, -10, -7), "2", "-10", "-7");
  }

  lemma ExampleLine3() ensures Render(Vec3(4, -8, 8)) == "<x=4, y=-8, z=8>" {
    RenderSpelled(Vec3(4, -8, 8), "4", "-8", "8");
  }

  lemma ExampleLine4() ensures Render(Vec3(3, 5, -1)) == "<x=3, y=5, z=-1>" {
    RenderSpelled(Vec3(3, 5, -1), "3", "5", "-1");
  }

  /** The lines of the example system. */
  const ExampleInput: seq<string> := ["<x=-1, y=0, z=2>", "<x=2, y=-10, z=-7>", "<x=4, y=-8, z=8>", "<x=3, y=5, z=-1>"]

  /** The positions the example's moons start at. */
  const ExamplePositions: seq<Vec3> := [Vec3(-1, 0, 2), Vec3(2, -10, -7), Vec3(4, -8, 8), Vec3(3, 5, -1)]

  lemma ExampleInputRendered()
    ensures RenderedSystem(ExamplePositions) == ExampleInput
  {
    ExampleLine1();
    ExampleLine2();
    ExampleLine3();
    ExampleLine4();
  }

  /** The example's four lines parse to the four moons, at rest. */
  lemma ExampleParses()
    ensures ParseSystem(ExampleInput) == Parsed(ExampleStart)
  {
    ExampleInputRendered();
    ExampleStartStill();
    ExamplePositionsI32();
    SystemRendered(ExamplePositions);
  }

  lemma ExampleStartStill()
    ensures StillAt(ExamplePositions) == ExampleStart
  {
  }

  lemma ExamplePositionsI32()
    ensures forall i :: 0 <= i < |ExamplePositions| ==>
      IsI32(ExamplePositions[i].x) && IsI32(ExamplePositions[i].y) && IsI32(ExamplePositions[i].z)
  {
  }

  /** A step along `c` is determined moon by moon. */
  lemma StepSpecIs(moons: seq<Moon>, c: Coord, expected: seq<Moon>)
    requires |expected| == |moons|
    requires forall i :: 0 <= i < |moons| ==> Stepped(moons, c, i) == expected[i]
    ensures StepSpec(moons, c) == expected
  {
  }

  const ExampleAfterOne: seq<Moon> := [M(2, -1, 1, 3, -1, -1), M(3, -7, -4, 1, 3, 3), M(1, -7, 5, -3, 1, -3), M(2, 2, 0, -1, -3, 1)]
  const ExampleAfterTwo: seq<Moon> := [M(5, -3, -1, 3, -2, -2), M(1, -2, 2, -2, 5, 6), M(1, -4, -1, 0, 3, -6), M(1, -4, 2, -1, -6, 2)]

  const ExampleOneX: seq<Moon> := [M(2, 0, 2, 3, 0, 0), M(3, -10, -7, 1, 0, 0), M(1, -8, 8, -3, 0, 0), M(2, 5, -1, -1, 0, 0)]
  const ExampleOneY: seq<Moon> := [M(2, -1, 2, 3, -1, 0), M(3, -7, -7, 1, 3, 0), M(1, -7, 8, -3, 1, 0), M(2, 2, -1, -1, -3, 0)]
  const ExampleTwoX: seq<Moon> := [M(5, -1, 1, 3, -1, -1), M(1, -7, -4, -2, 3, 3), M(1, -7, 5, 0, 1, -3), M(1, 2, 0, -1, -3, 1)]
  const ExampleTwoY: seq<Moon> := [M(5, -3, 1, 3, -2, -1), M(1, -2, -4, -2, 5, 3), M(1, -4, 5, 0, 3, -3), M(1, -4, 0, -1, -6, 1)]

  lemma ExampleOneXStep()
    ensures StepSpec(ExampleStart, X) == ExampleOneX
  {
    var s := ExampleStart;
    assert Pull(s, X, 0, 4) == 3 && Pull(s, X, 1, 4) == 1 && Pull(s, X, 2, 4) == -3 && Pull(s, X, 3, 4) == -1;
    StepSpecIs(s, X, ExampleOneX);
  }

  lemma ExampleOneYStep()
    ensures StepSpec(ExampleOneX, Y) == ExampleOneY
  {
    var s := ExampleOneX;
    assert Pull(s, Y, 0, 4) == -1 && Pull(s, Y, 1, 4) == 3 && Pull(s, Y, 2, 4) == 1 && Pull(s, Y, 3, 4) == -3;
    StepSpecIs(s, Y, ExampleOneY);
  }

  lemma ExampleAfterOneStep()
    ensures StepSpec(ExampleOneY, Z) == ExampleAfterOne
  {
    var s := ExampleOneY;
    assert Pull(s, Z, 0, 4) == -1 && Pull(s, Z, 1, 4) == 3 && Pull(s, Z, 2, 4) == -3 && Pull(s, Z, 3, 4) == 1;
    StepSpecIs(s, Z, ExampleAfterOne);
  }

  lemma ExampleTwoXStep()
    ensures StepSpec(ExampleAfterOne, X) == ExampleTwoX
  {
    var s := ExampleAfterOne;
    assert Pull(s, X, 0, 4) == 0 && Pull(s, X, 1, 4) == -3 && Pull(s, X, 2, 4) == 3 && Pull(s, X, 3, 4) == 0;
    StepSpecIs(s, X, ExampleTwoX);
  }

  lemma ExampleTwoYStep()
    ensures StepSpec(ExampleTwoX, Y) == ExampleTwoY
  {
    var s := ExampleTwoX;
    assert Pull(s, Y, 0, 4) == -1 && Pull(s, Y, 1, 4) == 2 && Pull(s, Y, 2, 4) == 2 && Pull(s, Y, 3, 4) == -3;
    StepSpecIs(s, Y, ExampleTwoY);
  }

  lemma ExampleAfterTwoStep()
    ensures StepSpec(ExampleTwoY, Z) == ExampleAfterTwo
  {
    var s := ExampleTwoY;
    assert Pull(s, Z, 0, 4) == -1 && Pull(s, Z, 1, 4) == 3 && Pull(s, Z, 2, 4) == -3 && Pull(s, Z, 3, 4) == 1;
    StepSpecIs(s, Z, ExampleAfterTwo);
  }

  /** The two steps the example system is checked against. */
  lemma ExampleSteps()
    ensures StepAllTimes(ExampleStart, 1) == ExampleAfterOne
    ensures StepAllTimes(ExampleStart, 2) == ExampleAfterTwo
  {
    ExampleOneXStep();
    ExampleOneYStep();
    ExampleAfterOneStep();
    ExampleTwoXStep();
    ExampleTwoYStep();
    ExampleAfterTwoStep();
    assert StepAllSpec(ExampleStart) == ExampleAfterOne;
    assert StepAllSpec(ExampleAfterOne) == ExampleAfterTwo;
    assert StepAllTimes(ExampleAfterTwo, 0) == ExampleAfterTwo;
    assert StepAllTimes(ExampleAfterOne, 1) == ExampleAfterTwo;
  }
}
