/** Day 11 (day_11/src/main.rs): a hull-painting robot driven by an
    Intcode machine. The machine reads the colour of the panel under the
    robot and answers with pairs of outputs: a colour to paint, then a
    turn, after which the robot steps forward one panel.

    The machine is `IntcodeExecutor.ResumableVm`: the implementation of
    `Runable` for `VM` is not among the modelled files. */
module Day11 {
  import opened Common
  import opened IntcodeErrors
  import opened IntcodeExecutor

  // ---------------------------------------------------------------------
  // Directions

  datatype Direction = Up | Down | Left | Right

  /** The unit step a robot facing `d` takes; up is towards larger `y`
      and right towards larger `x`. */
  function Delta(d: Direction): (r: (int, int))
    ensures Abs(r.0) + Abs(r.1) == 1
    ensures (d == Up || d == Down) <==> r.0 == 0
  {
    match d
    case Up => (0, 1)
    case Down => (0, -1)
    case Left => (-1, 0)
    case Right => (1, 0)
  }

  /** `left`: a quarter turn anticlockwise, which rotates the step
      `(dx, dy)` to `(-dy, dx)`. */
  function TurnedLeft(d: Direction): (r: Direction)
    ensures r != d
    ensures Delta(r) == (-Delta(d).1, Delta(d).0)
  {
    match d
    case Up => Left
    case Down => Right
    case Left => Down
    case Right => Up
  }

  /** `right`: a quarter turn clockwise, which rotates the step
      `(dx, dy)` to `(dy, -dx)`. */
  function TurnedRight(d: Direction): (r: Direction)
    ensures r != d
    ensures Delta(r) == (Delta(d).1, -Delta(d).0)
  {
    match d
    case Up => Right
    case Down => Left
    case Left => Up
    case Right => Down
  }

  /** Turning right undoes turning left, and the other way round. */
  lemma TurnsAreInverse(d: Direction)
    ensures TurnedLeft(TurnedRight(d)) == d
    ensures TurnedRight(TurnedLeft(d)) == d
  {
  }

  /** Four quarter turns the same way face the robot where it started. */
  lemma FourTurnsReturn(d: Direction)
    ensures TurnedLeft(TurnedLeft(TurnedLeft(TurnedLeft(d)))) == d
    ensures TurnedRight(TurnedRight(TurnedRight(TurnedRight(d)))) == d
  {
  }

  type Point = (int, int)

  /** `step`: one panel forward, by the step of the facing direction. */
  function Stepped(p: Point, d: Direction): (r: Point)
    ensures Abs(r.0 - p.0) + Abs(r.1 - p.1) == 1
    ensures (d == Up || d == Down) <==> r.0 == p.0
    ensures r == (p.0 + Delta(d).0, p.1 + Delta(d).1)
  {
    match d
    case Up => (p.0, p.1 + 1)
    case Down => (p.0, p.1 - 1)
    case Left => (p.0 - 1, p.1)
    case Right => (p.0 + 1, p.1)
  }

  // ---------------------------------------------------------------------
  // The robot on values

  datatype Color = White | Black

  /** The robot's fields, with the calls made on its machine. */
  datatype RobotState = RobotState(
    position: Point,
    direction: Direction,
    outputCount: nat,
    startingPanel: Option<Color>,
    painted: map<Point, Color>,
    history: seq<Call>)

  /** `Robot::new` (`None`) or `Robot::start_on_white` (`Some(White)`). */
  function Start(startingPanel: Option<Color>): RobotState {
    RobotState((0, 0), Up, 0, startingPanel, map[], [])
  }

  /** `run_with_output` before it runs the machine again: an output with
      an even count paints the panel under the robot (0 black, anything
      else white); an output with an odd count turns the robot (0 left,
      anything else right) and steps it forward. The count goes up by
      one either way. */
  function AfterOutput(st: RobotState, output: int): (r: RobotState)
    ensures r.outputCount == st.outputCount + 1
    ensures r.startingPanel == st.startingPanel && r.history == st.history
    ensures st.outputCount % 2 == 0 ==>
      && r.painted == st.painted[st.position := if output == 0 then Black else White]
      && r.position == st.position && r.direction == st.direction
    ensures st.outputCount % 2 == 1 ==>
      && r.painted == st.painted
      && r.direction == (if output == 0 then TurnedLeft(st.direction) else TurnedRight(st.direction))
      && r.position == Stepped(st.position, r.direction)
  {
    var counted := st.(outputCount := st.outputCount + 1);
    if st.outputCount % 2 == 0 then
      counted.(painted := st.painted[st.position := if output == 0 then Black else White])
    else
      var d := if output == 0 then TurnedLeft(st.direction) else TurnedRight(st.direction);
      counted.(direction := d, position := Stepped(st.position, d))
  }

  /** The colour `run_with_input` reports: the panel's paint, else the
      starting panel, else black. */
  function SeenColor(st: RobotState): Color {
    if st.position in st.painted then st.painted[st.position]
    else if st.startingPanel.Some? then st.startingPanel.value
    else Black
  }

  /** The input `run_with_input` supplies, and the state it leaves: 1 on a
      white panel, 0 on a black one. The starting panel is taken on every
      request, painted panel or not, because the fallback argument of
      `unwrap_or` is evaluated before the lookup's result is used. */
  function InputFor(st: RobotState): (r: (int, RobotState))
    ensures r.0 == 1 <==> SeenColor(st) == White
    ensures r.0 == 0 <==> SeenColor(st) == Black
    ensures r.1 == st.(startingPanel := None)
  {
    (if SeenColor(st) == White then 1 else 0, st.(startingPanel := None))
  }

  /** How a run of the robot ends: with the machine's exit result, or
      with the fuel spent. */
  datatype Outcome = Finished(result: Result<(), ErrorKind>) | OutOfFuel

  /** `handle_status`: an exit ends the run with its result; an output is
      handled by `run_with_output`, a request for input by
      `run_with_input`. */
  function Responded(b: Behaviour, st: RobotState, status: Status, fuel: nat): (RobotState, Outcome)
    decreases fuel, 2
  {
    match status
    case Exited(result) => (st, Finished(result))
    case HasOutput(output) => Ran(b, AfterOutput(st, output), fuel)
    case RequiresInput => Fed(b, st, fuel)
  }

  /** `run`: one `run()` call, then `handle_status`; each call on the
      machine spends one unit of fuel. */
  function Ran(b: Behaviour, st: RobotState, fuel: nat): (RobotState, Outcome)
    decreases fuel, 1
  {
    if fuel == 0 then (st, OutOfFuel)
    else
      var h := st.history + [RunCall];
      Responded(b, st.(history := h), b(h), fuel - 1)
  }

  /** `run_with_input`: the colour under the robot is fed to the machine,
      then `handle_status`. */
  function Fed(b: Behaviour, st: RobotState, fuel: nat): (RobotState, Outcome)
    decreases fuel, 1
  {
    if fuel == 0 then (st, OutOfFuel)
    else
      var (input, taken) := InputFor(st);
      var h := st.history + [InputCall(input)];
      Responded(b, taken.(history := h), b(h), fuel - 1)
  }

  /** A panel once painted stays painted (its colour may change). */
  lemma {:induction false} RespondedKeepsPanels(b: Behaviour, st: RobotState, status: Status, fuel: nat)
    ensures st.painted.Keys <= Responded(b, st, status, fuel).0.painted.Keys
    decreases fuel, 2
  {
    match status {
      case Exited(_) =>
      case HasOutput(output) =>
        RanKeepsPanels(b, AfterOutput(st, output), fuel);
      case RequiresInput =>
        FedKeepsPanels(b, st, fuel);
    }
  }

  lemma {:induction false} RanKeepsPanels(b: Behaviour, st: RobotState, fuel: nat)
    ensures st.painted.Keys <= Ran(b, st, fuel).0.painted.Keys
    decreases fuel, 1
  {
    if fuel > 0 {
      var h := st.history + [RunCall];
      RespondedKeepsPanels(b, st.(history := h), b(h), fuel - 1);
    }
  }

  lemma {:induction false} FedKeepsPanels(b: Behaviour, st: RobotState, fuel: nat)
    ensures st.painted.Keys <= Fed(b, st, fuel).0.painted.Keys
    decreases fuel, 1
  {
    if fuel > 0 {
      var (input, taken) := InputFor(st);
      var h := st.history + [InputCall(input)];
      RespondedKeepsPanels(b, taken.(history := h), b(h), fuel - 1);
    }
  }

  /** The robot only ever paints the panels it stands on: every painted
      panel is the robot's position or was painted before. */
  lemma PaintsOnlyUnderRobot(st: RobotState, output: int)
    ensures AfterOutput(st, output).painted.Keys <= st.painted.Keys + {st.position}
  {
  }

  // ---------------------------------------------------------------------
  // Rendering

  /** The character of panel `(x, y)`: `#` when it is painted white, a
      space otherwise. */
  function Shade(p: map<Point, Color>, x: int, y: int): (c: char)
    ensures c == '#' <==> (x, y) in p && p[(x, y)] == White
    ensures c == '#' || c == ' '
  {
    if (x, y) in p && p[(x, y)] == White then '#' else ' '
  }

  /** The panels `(x, y)` for `y` in `lo..hi`, one character each. */
  function Row(p: map<Point, Color>, x: int, lo: int, hi: int): (s: string)
    ensures |s| == Max(0, hi - lo)
    ensures forall y :: lo <= y < hi ==> s[y - lo] == Shade(p, x, y)
    decreases hi - lo
  {
    if hi <= lo then [] else Row(p, x, lo, hi - 1) + [Shade(p, x, hi - 1)]
  }

  /** The rows for `x` in `xlo..xhi`, each ended by a newline. */
  function Grid(p: map<Point, Color>, xlo: int, xhi: int, ylo: int, yhi: int): string
    decreases xhi - xlo
  {
    if xhi <= xlo then [] else Grid(p, xlo, xhi - 1, ylo, yhi) + Row(p, xhi - 1, ylo, yhi) + ['\n']
  }

  /** The grid over `xlo..xhi` is the grid over `xlo..m` followed by the
      grid over `m..xhi`. */
  lemma {:induction false} GridSplit(p: map<Point, Color>, xlo: int, m: int, xhi: int, ylo: int, yhi: int)
    requires xlo <= m <= xhi
    ensures Grid(p, xlo, xhi, ylo, yhi) == Grid(p, xlo, m, ylo, yhi) + Grid(p, m, xhi, ylo, yhi)
    decreases xhi - m
  {
    if m < xhi {
      GridSplit(p, xlo, m, xhi - 1, ylo, yhi);
    }
  }

  /** Every line of the grid holds `yhi - ylo` panels and a newline. */
  lemma {:induction false} GridLength(p: map<Point, Color>, xlo: int, xhi: int, ylo: int, yhi: int)
    requires xlo <= xhi && ylo <= yhi
    ensures |Grid(p, xlo, xhi, ylo, yhi)| == (xhi - xlo) * (yhi - ylo + 1)
    decreases xhi - xlo
  {
    if xlo < xhi {
      GridLength(p, xlo, xhi - 1, ylo, yhi);
      assert (xhi - xlo) * (yhi - ylo + 1) == (xhi - 1 - xlo) * (yhi - ylo + 1) + (yhi - ylo + 1);
    }
  }

  /** `s` has least element `m`. */
  ghost predicate IsLeast(s: set<int>, m: int) {
    m in s && forall v :: v in s ==> m <= v
  }

  /** `s` has greatest element `m`. */
  ghost predicate IsGreatest(s: set<int>, m: int) {
    m in s && forall v :: v in s ==> v <= m
  }

  ghost function Xs(p: map<Point, Color>): set<int> {
    set k | k in p :: k.0
  }

  ghost function Ys(p: map<Point, Color>): set<int> {
    set k | k in p :: k.1
  }

  /** The bounds `output` draws between: one below the least coordinate
      (inclusive) up to one above the greatest (exclusive). */
  ghost predicate Frame(p: map<Point, Color>, xlo: int, xhi: int, ylo: int, yhi: int) {
    IsLeast(Xs(p), xlo + 1) && IsGreatest(Xs(p), xhi - 1) && IsLeast(Ys(p), ylo + 1) && IsGreatest(Ys(p), yhi - 1)
  }

  /** Character `y - ylo` of the line for `x` is the shade of `(x, y)`. */
  lemma {:induction false} GridShows(p: map<Point, Color>, xlo: int, xhi: int, ylo: int, yhi: int, x: int, y: int)
    requires xlo <= x < xhi && ylo <= y < yhi
    ensures var g := Grid(p, xlo, xhi, ylo, yhi);
      var i := |Grid(p, xlo, x, ylo, yhi)| + (y - ylo);
      0 <= i < |g| && g[i] == Shade(p, x, y)
  {
    var before := Grid(p, xlo, x, ylo, yhi);
    var line := Row(p, x, ylo, yhi);
    var upto := Grid(p, xlo, x + 1, ylo, yhi);
    assert upto == before + line + ['\n'];
    GridSplit(p, xlo, x + 1, xhi, ylo, yhi);
    var g := Grid(p, xlo, xhi, ylo, yhi);
    assert g == upto + Grid(p, x + 1, xhi, ylo, yhi);
    var i := |before| + (y - ylo);
    assert i < |upto| && g[i] == upto[i];
    assert upto[i] == line[y - ylo];
  }

  /** Every panel painted white shows as `#` in the picture `output` draws
      within a frame of the painted panels: line `x - xlo` of the picture
      is the row of `x`, and its character `y - ylo` is `#`. */
  lemma WhitePanelsShown(p: map<Point, Color>, xlo: int, xhi: int, ylo: int, yhi: int, k: Point)
    requires Frame(p, xlo, xhi, ylo, yhi)
    requires k in p && p[k] == White
    ensures var g := Grid(p, xlo, xhi, ylo, yhi);
      var i := |Grid(p, xlo, k.0, ylo, yhi)| + (k.1 - ylo);
      0 <= i < |g| && g[i] == '#'
  {
    var (x, y) := k;
    assert x in Xs(p) && y in Ys(p);
    assert xlo < x < xhi && ylo < y < yhi;
    GridShows(p, xlo, xhi, ylo, yhi, x, y);
  }

  /** The least and greatest coordinates of a non-empty set of panels,
      one key at a time. */
  method Extent(p: map<Point, Color>) returns (xmin: int, xmax: int, ymin: int, ymax: int)
    requires |p| > 0
    ensures IsLeast(Xs(p), xmin) && IsGreatest(Xs(p), xmax)
    ensures IsLeast(Ys(p), ymin) && IsGreatest(Ys(p), ymax)
  {
    var first :| first in p;
    xmin, xmax, ymin, ymax := first.0, first.0, first.1, first.1;
    var todo := p.Keys - {first};
    while todo != {}
      invariant todo <= p.Keys && first !in todo
      invariant xmin in Xs(p) && xmax in Xs(p) && ymin in Ys(p) && ymax in Ys(p)
      invariant forall k :: k in p && k !in todo ==> xmin <= k.0 <= xmax && ymin <= k.1 <= ymax
      decreases |todo|
    {
      var k :| k in todo;
      xmin, xmax := Min(xmin, k.0), Max(xmax, k.0);
      ymin, ymax := Min(ymin, k.1), Max(ymax, k.1);
      todo := todo - {k};
    }
  }

  // ---------------------------------------------------------------------
  // The robot

  class Robot {
    const vm: ResumableVm
    var position: Point
    var direction: Direction
    var outputCount: nat
    var startingPanel: Option<Color>
    var painted: map<Point, Color>

    ghost predicate Valid()
      reads this, vm
    {
      vm.Valid()
    }

    function State(): RobotState
      reads this, vm
    {
      RobotState(position, direction, outputCount, startingPanel, painted, vm.history)
    }

    /** `Robot::new` (with `None`) and `Robot::start_on_white` (with
        `Some(White)`), on a fresh machine. */
    constructor New(b: Behaviour, start: Option<Color>)
      requires OutputsI32(b)
      ensures Valid() && fresh(vm) && vm.behaviour == b
      ensures State() == Start(start)
    {
      vm := new ResumableVm.New(b);
      position := (0, 0);
      direction := Up;
      outputCount := 0;
      startingPanel := start;
      painted := map[];
    }

    /** `step`. */
    method Step()
      modifies this
      ensures position == Stepped(old(position), direction)
      ensures direction == old(direction) && painted == old(painted)
      ensures outputCount == old(outputCount) && startingPanel == old(startingPanel)
    {
      match direction {
        case Up => position := (position.0, position.1 + 1);
        case Down => position := (position.0, position.1 - 1);
        case Left => position := (position.0 - 1, position.1);
        case Right => position := (position.0 + 1, position.1);
      }
    }

    /** `handle_status`. */
    method HandleStatus(status: Status, fuel: nat) returns (r: Outcome)
      requires Valid()
      modifies this, vm
      ensures Valid()
      ensures (State(), r) == Responded(vm.behaviour, old(State()), status, fuel)
      decreases fuel, 2
    {
      match status {
        case Exited(result) =>
          r := Finished(result);
        case HasOutput(output) =>
          r := RunWithOutput(output, fuel);
        case RequiresInput =>
          r := RunWithInput(fuel);
      }
    }

    /** `run_with_output`. */
    method RunWithOutput(output: int, fuel: nat) returns (r: Outcome)
      requires Valid()
      modifies this, vm
      ensures Valid()
      ensures (State(), r) == Ran(vm.behaviour, AfterOutput(old(State()), output), fuel)
      decreases fuel, 1
    {
      if outputCount % 2 == 0 {
        painted := painted[position := if output == 0 then Black else White];
      } else {
        if output == 0 {
          direction := TurnedLeft(direction);
        } else {
          direction := TurnedRight(direction);
        }
        Step();
      }
      outputCount := outputCount + 1;
      r := Run(fuel);
    }

    /** `run_with_input`. */
    method RunWithInput(fuel: nat) returns (r: Outcome)
      requires Valid()
      modifies this, vm
      ensures Valid()
      ensures (State(), r) == Fed(vm.behaviour, old(State()), fuel)
      decreases fuel, 1
    {
      if fuel == 0 {
        return OutOfFuel;
      }
      var fallback := if startingPanel.Some? then startingPanel.value else Black;
      startingPanel := None;
      var color := if position in painted then painted[position] else fallback;
      var status;
      match color {
        case White => status := vm.RunWithInput(1);
        case Black => status := vm.RunWithInput(0);
      }
      r := HandleStatus(status, fuel - 1);
    }

    /** `run`. */
    method Run(fuel: nat) returns (r: Outcome)
      requires Valid()
      modifies this, vm
      ensures Valid()
      ensures (State(), r) == Ran(vm.behaviour, old(State()), fuel)
      decreases fuel, 0
    {
      if fuel == 0 {
        return OutOfFuel;
      }
      var status := vm.Run();
      r := HandleStatus(status, fuel - 1);
    }

    /** `output`: nothing when no panel is painted; otherwise one line per
        `x` from one below the least painted `x` up to the greatest, each
        holding the panels for `y` from one below the least painted `y`
        up to the greatest. */
    method Output() returns (r: Option<string>)
      ensures r.None? <==> |painted| == 0
      ensures r.Some? ==> exists xlo, xhi, ylo, yhi ::
        Frame(painted, xlo, xhi, ylo, yhi) && r.value == Grid(painted, xlo, xhi, ylo, yhi)
    {
      if |painted| == 0 {
        return None;
      }
      var xmin, xmax, ymin, ymax := Extent(painted);
      var xlo, xhi, ylo, yhi := xmin - 1, xmax + 1, ymin - 1, ymax + 1;
      var result := "";
      var x := xlo;
      while x < xhi
        invariant xlo <= x <= xhi
        invariant result == Grid(painted, xlo, x, ylo, yhi)
      {
        var y := ylo;
        var row := "";
        while y < yhi
          invariant ylo <= y <= yhi
          invariant row == Row(painted, x, ylo, y)
        {
          row := row + [Shade(painted, x, y)];
          y := y + 1;
        }
        result := result + row + ['\n'];
        x := x + 1;
      }
      assert Frame(painted, xlo, xhi, ylo, yhi);
      r := Some(result);
    }
  }

  /** The exit of a run as `main` sees it: the machine's own error, or
      the fuel spent. */
  datatype RunError = MachineError(kind: ErrorKind) | Exhausted | NothingPainted

  /** Part one: the number of panels painted at least once. */
  function PartOneSpec(b: Behaviour, fuel: nat): Result<nat, RunError> {
    var (st, outcome) := Ran(b, Start(None), fuel);
    match outcome
    case OutOfFuel => Err(Exhausted)
    case Finished(result) => if result.Err? then Err(MachineError(result.error)) else Ok(|st.painted|)
  }

  /** `main`'s part one: a robot on a black hull runs until its machine
      exits, then its painted panels are counted. */
  method PartOne(b: Behaviour, fuel: nat) returns (r: Result<nat, RunError>)
    requires OutputsI32(b)
    ensures r == PartOneSpec(b, fuel)
  {
    var robot := new Robot.New(b, None);
    var outcome := robot.Run(fuel);
    match outcome {
      case OutOfFuel => return Err(Exhausted);
      case Finished(result) =>
        if result.Err? {
          return Err(MachineError(result.error));
        }
    }
    r := Ok(|robot.painted|);
  }

  /** `main`'s part two: a robot starting on a white panel runs until its
      machine exits, then draws what it painted; `unwrap` on an empty
      picture panics, reported as `NothingPainted`. */
  method PartTwo(b: Behaviour, fuel: nat) returns (r: Result<string, RunError>)
    requires OutputsI32(b)
    ensures var (st, outcome) := Ran(b, Start(Some(White)), fuel);
      && (outcome.OutOfFuel? ==> r == Err(Exhausted))
      && (outcome.Finished? && outcome.result.Err? ==> r == Err(MachineError(outcome.result.error)))
      && (outcome == Finished(Ok(())) ==> if |st.painted| == 0 then r == Err(NothingPainted) else r.Ok?)
      && (r.Ok? ==> outcome == Finished(Ok(())) && exists xlo, xhi, ylo, yhi ::
            Frame(st.painted, xlo, xhi, ylo, yhi) && r.value == Grid(st.painted, xlo, xhi, ylo, yhi))
  {
    var robot := new Robot.New(b, Some(White));
    var outcome := robot.Run(fuel);
    if outcome.OutOfFuel? {
      return Err(Exhausted);
    }
    if outcome.result.Err? {
      return Err(MachineError(outcome.result.error));
    }
    assert outcome.result.value == ();
    var picture := robot.Output();
    if picture.None? {
      return Err(NothingPainted);
    }
    r := Ok(picture.value);
  }
}
