/** Day 13 (day_13/src/main.rs): an arcade cabinet driven by an Intcode
    machine. Every three outputs of the machine form a triple `(x, y, t)`:
    the score when `(x, y)` is `(-1, 0)`, otherwise tile code `t` drawn at
    column `x` of row `y` of a screen that grows on demand.

    The machine is `IntcodeExecutor.ResumableVm`: the implementation of
    `Runable` for `VM` is not among the modelled files. */
module Day13 {
  import opened Common
  import opened IntcodeExecutor

  // ---------------------------------------------------------------------
  // Tiles

  datatype Tile = Empty | Wall | Block | HorizontalPaddle | Ball

  /** The code of a tile. */
  function Code(t: Tile): (n: int)
    ensures 0 <= n <= 4
  {
    match t
    case Empty => 0
    case Wall => 1
    case Block => 2
    case HorizontalPaddle => 3
    case Ball => 4
  }

  /** `Tile::from`: codes 0 to 4 name a tile; any other code panics,
      which is `None` here. */
  function TileOf(n: int): (r: Option<Tile>)
    ensures r.Some? <==> 0 <= n <= 4
    ensures r.Some? ==> Code(r.value) == n
  {
    if n == 0 then Some(Empty)
    else if n == 1 then Some(Wall)
    else if n == 2 then Some(Block)
    else if n == 3 then Some(HorizontalPaddle)
    else if n == 4 then Some(Ball)
    else None
  }

  /** Every tile is read back from its code. */
  lemma TileCodeRoundTrip(t: Tile)
    ensures TileOf(Code(t)) == Some(t)
  {
    match t
    case Empty =>
    case Wall =>
    case Block =>
    case HorizontalPaddle =>
    case Ball =>
  }

  // ---------------------------------------------------------------------
  // Reading triples

  /** `InternalStatus`: how much of the current triple has been read. */
  datatype Reading = ReadingX | ReadingY(x: int) | ReadingT(x: int, y: int)

  type Triple = (int, int, int)

  /** `InternalStatus::next`: the new reading state, and the triple it
      completes, if any. Only the third output of a triple completes it,
      and then reading starts over. */
  function NextReading(r: Reading, output: int): (p: (Reading, Option<Triple>))
    ensures p.1.Some? <==> r.ReadingT?
    ensures p.1.Some? ==> p.1.value == (r.x, r.y, output) && p.0 == ReadingX
  {
    match r
    case ReadingX => (ReadingY(output), None)
    case ReadingY(x) => (ReadingT(x, output), None)
    case ReadingT(x, y) => (ReadingX, Some((x, y, output)))
  }

  /** The outputs a reading state holds on to. */
  function Pending(r: Reading): (s: seq<int>)
    ensures |s| < 3
  {
    match r
    case ReadingX => []
    case ReadingY(x) => [x]
    case ReadingT(x, y) => [x, y]
  }

  /** `next` applied to each output in turn: the final state and the
      triples completed, in order. */
  function Feed(r: Reading, outputs: seq<int>): (p: (Reading, seq<Triple>))
    decreases |outputs|
  {
    if outputs == [] then (r, [])
    else
      var (r', item) := NextReading(r, outputs[0]);
      var (last, items) := Feed(r', outputs[1..]);
      (last, (if item.Some? then [item.value] else []) + items)
  }

  /** Consecutive outputs grouped by three; a short tail is dropped. */
  function Triples(outputs: seq<int>): (ts: seq<Triple>)
    ensures |ts| == |outputs| / 3
  {
    if |outputs| < 3 then [] else [(outputs[0], outputs[1], outputs[2])] + Triples(outputs[3..])
  }

  /** Fed any outputs, `next` completes exactly the triples of what it
      held plus the outputs, in order, and holds on to what is left
      over. */
  lemma {:induction false} FeedGroupsTriples(r: Reading, outputs: seq<int>)
    ensures var all := Pending(r) + outputs;
      && Feed(r, outputs).1 == Triples(all)
      && Pending(Feed(r, outputs).0) == all[|all| - |all| % 3..]
    decreases |outputs|
  {
    if outputs != [] {
      var (r', item) := NextReading(r, outputs[0]);
      FeedGroupsTriples(r', outputs[1..]);
      ReadingStep(r, outputs);
    } else {
      match r {
        case ReadingX =>
        case ReadingY(x) =>
        case ReadingT(x, y) =>
      }
    }
  }

  /** One output moves one value from the outputs into what is held, or
      completes the held triple. */
  lemma ReadingStep(r: Reading, outputs: seq<int>)
    requires outputs != []
    ensures var (r', item) := NextReading(r, outputs[0]);
      var all := Pending(r) + outputs;
      var rest := Pending(r') + outputs[1..];
      && Triples(all) == (if item.Some? then [item.value] else []) + Triples(rest)
      && all[|all| - |all| % 3..] == rest[|rest| - |rest| % 3..]
  {
    var all := Pending(r) + outputs;
    var r' := NextReading(r, outputs[0]).0;
    var rest := Pending(r') + outputs[1..];
    match r {
      case ReadingX =>
        assert rest == all;
      case ReadingY(x) =>
        assert rest == all;
      case ReadingT(x, y) =>
        assert all[..3] == [x, y, outputs[0]] && all[3..] == rest;
        assert |all| - |all| % 3 == 3 + (|rest| - |rest| % 3);
    }
  }

  // ---------------------------------------------------------------------
  // The screen

  type Screen = seq<seq<Tile>>

  /** `s` padded with `fill` up to length `n`. */
  function Grown<T>(s: seq<T>, n: nat, fill: T): (r: seq<T>)
    ensures |r| == Max(|s|, n)
    ensures forall i :: 0 <= i < |r| ==> r[i] == if i < |s| then s[i] else fill
  {
    if |s| >= n then s else s + seq(n - |s|, _ => fill)
  }

  /** `set(x, y, t)` on the screen: at least `y + 1` rows (new rows are
      empty), row `y` at least `x + 1` tiles (new tiles are `Empty`),
      and `t` at column `x` of row `y`. */
  function Placed(s: Screen, x: nat, y: nat, t: Tile): (r: Screen)
  {
    var rows := Grown(s, y + 1, []);
    rows[y := Grown(rows[y], x + 1, Empty)[x := t]]
  }

  /** The tile at column `x` of row `y`, `Empty` where the screen has
      none. */
  function TileAt(s: Screen, x: nat, y: nat): Tile {
    if y < |s| && x < |s[y]| then s[y][x] else Empty
  }

  /** `set` writes `t` at `(x, y)`, and only there: every other position
      of the screen reads as before, and the screen shrinks nowhere. */
  lemma PlacedWrites(s: Screen, x: nat, y: nat, t: Tile)
    ensures var r := Placed(s, x, y, t);
      && |r| == Max(|s|, y + 1)
      && (forall i :: 0 <= i < |s| ==> |r[i]| >= |s[i]|)
      && |r[y]| == Max(if y < |s| then |s[y]| else 0, x + 1)
      && TileAt(r, x, y) == t
      && (forall i: nat, j: nat :: (i, j) != (y, x) ==> TileAt(r, j, i) == TileAt(s, j, i))
      && (forall i :: 0 <= i < |r| && i != y ==> r[i] == if i < |s| then s[i] else [])
  {
  }

  /** Every tile of the screen is `Empty`. */
  ghost predicate Blank(s: Screen) {
    forall i, j :: 0 <= i < |s| && 0 <= j < |s[i]| ==> s[i][j] == Empty
  }

  /** The number of `Block` tiles in a row. */
  function RowBlocks(row: seq<Tile>): (n: nat)
    ensures n <= |row|
  {
    if row == [] then 0 else RowBlocks(row[..|row| - 1]) + (if row[|row| - 1] == Block then 1 else 0)
  }

  /** The answer of `part1`: `Block` tiles counted row by row and summed. */
  function CountBlocks(s: Screen): nat {
    if s == [] then 0 else CountBlocks(s[..|s| - 1]) + RowBlocks(s[|s| - 1])
  }

  /** All rows of the screen, one after the other. */
  function Flatten(s: Screen): seq<Tile> {
    if s == [] then [] else Flatten(s[..|s| - 1]) + s[|s| - 1]
  }

  /** A row's count is the number of times `Block` occurs in it. */
  lemma {:induction false} RowBlocksCounts(row: seq<Tile>)
    ensures RowBlocks(row) == multiset(row)[Block]
  {
    if row != [] {
      RowBlocksCounts(row[..|row| - 1]);
      assert row == row[..|row| - 1] + [row[|row| - 1]];
    }
  }

  /** The block count is the number of times `Block` occurs on the whole
      screen. */
  lemma {:induction false} CountBlocksCounts(s: Screen)
    ensures CountBlocks(s) == multiset(Flatten(s))[Block]
  {
    if s != [] {
      CountBlocksCounts(s[..|s| - 1]);
      RowBlocksCounts(s[|s| - 1]);
    }
  }

  /** A blank screen holds no block. */
  lemma {:induction false} BlankHasNoBlocks(s: Screen)
    requires Blank(s)
    ensures CountBlocks(s) == 0
  {
    if s != [] {
      BlankHasNoBlocks(s[..|s| - 1]);
      RowBlankHasNoBlocks(s[|s| - 1]);
    }
  }

  lemma {:induction false} RowBlankHasNoBlocks(row: seq<Tile>)
    requires forall j :: 0 <= j < |row| ==> row[j] == Empty
    ensures RowBlocks(row) == 0
  {
    if row != [] {
      RowBlankHasNoBlocks(row[..|row| - 1]);
    }
  }

  // ---------------------------------------------------------------------
  // The arcade on values

  /** The arcade's fields, with the calls made on its machine. */
  datatype ArcadeState = ArcadeState(score: int, reading: Reading, screen: Screen, history: seq<Call>)

  /** The panics of the arcade: a tile code `Tile::from` rejects, and a
      drawn position with a negative coordinate, which `as usize` turns
      into an index far out of reach. */
  datatype Crash = UnknownTile(code: int) | OffScreen(x: int, y: int)

  /** How a run of the arcade ends: with the machine's status, in a panic,
      or with the fuel spent. */
  datatype Outcome = Stopped(status: Status) | Crashed(crash: Crash) | OutOfFuel

  /** A completed triple: `(-1, 0, t)` sets the score to `t`; any other
      triple is drawn, `t` being converted to a tile before the position
      is used. */
  function Drawn(st: ArcadeState, x: int, y: int, t: int): (r: Result<ArcadeState, Crash>)
    ensures r.Ok? ==> r.value.reading == st.reading && r.value.history == st.history
    ensures (x, y) == (-1, 0) ==> r == Ok(st.(score := t))
    ensures (x, y) != (-1, 0) && r.Ok? ==>
      0 <= x && 0 <= y && TileOf(t).Some? && r.value == st.(screen := Placed(st.screen, x, y, TileOf(t).value))
    ensures (x, y) != (-1, 0) && TileOf(t).None? ==> r == Err(UnknownTile(t))
    ensures (x, y) != (-1, 0) && TileOf(t).Some? && (x < 0 || y < 0) ==> r == Err(OffScreen(x, y))
  {
    if x == -1 && y == 0 then Ok(st.(score := t))
    else
      match TileOf(t)
      case None => Err(UnknownTile(t))
      case Some(tile) =>
        if x < 0 || y < 0 then Err(OffScreen(x, y))
        else Ok(st.(screen := Placed(st.screen, x, y, tile)))
  }

  /** `handle_status`: an output advances the reading, handles a completed
      triple, and runs the machine again; any other status is returned as
      it is. */
  function Took(b: Behaviour, st: ArcadeState, status: Status, fuel: nat): (ArcadeState, Outcome)
    decreases fuel, 2
  {
    match status
    case HasOutput(output) =>
      var (reading, item) := NextReading(st.reading, output);
      var read := st.(reading := reading);
      if item.None? then Ran(b, read, fuel)
      else
        (match Drawn(read, item.value.0, item.value.1, item.value.2)
         case Err(c) => (read, Crashed(c))
         case Ok(drawn) => Ran(b, drawn, fuel))
    case _ => (st, Stopped(status))
  }

  /** `run`: one `run()` call on the machine, then `handle_status`. Each
      call spends one unit of fuel. */
  function Ran(b: Behaviour, st: ArcadeState, fuel: nat): (ArcadeState, Outcome)
    decreases fuel, 1
  {
    if fuel == 0 then (st, OutOfFuel)
    else
      var h := st.history + [RunCall];
      Took(b, st.(history := h), b(h), fuel - 1)
  }

  /** `run_with_input`: one `run_with_input(input)` call, then
      `handle_status`. */
  function RanWithInput(b: Behaviour, st: ArcadeState, input: int, fuel: nat): (ArcadeState, Outcome) {
    var h := st.history + [InputCall(input)];
    Took(b, st.(history := h), b(h), fuel)
  }

  /** `handle_status` hands a status other than an output back unchanged
      and changes nothing. */
  lemma TookPassesOn(b: Behaviour, st: ArcadeState, status: Status, fuel: nat)
    requires !status.HasOutput?
    ensures Took(b, st, status, fuel) == (st, Stopped(status))
  {
  }

  /** The arcade consumes every output: the status it stops with is never
      an output. */
  lemma {:induction false} TookSettles(b: Behaviour, st: ArcadeState, status: Status, fuel: nat)
    ensures var o := Took(b, st, status, fuel).1;
      o.Stopped? ==> !o.status.HasOutput?
    decreases fuel, 2
  {
    if status.HasOutput? {
      var (reading, item) := NextReading(st.reading, status.out);
      var read := st.(reading := reading);
      if item.None? {
        RanSettles(b, read, fuel);
      } else {
        var drawn := Drawn(read, item.value.0, item.value.1, item.value.2);
        if drawn.Ok? {
          RanSettles(b, drawn.value, fuel);
        }
      }
    }
  }

  lemma {:induction false} RanSettles(b: Behaviour, st: ArcadeState, fuel: nat)
    ensures var o := Ran(b, st, fuel).1;
      o.Stopped? ==> !o.status.HasOutput?
    decreases fuel, 1
  {
    if fuel > 0 {
      var h := st.history + [RunCall];
      TookSettles(b, st.(history := h), b(h), fuel - 1);
    }
  }

  /** `calls` extends `h` by `run()` calls only. */
  predicate OnlyRuns(h: seq<Call>, calls: seq<Call>) {
    |h| <= |calls| && calls[..|h|] == h && forall i :: |h| <= i < |calls| ==> calls[i] == RunCall
  }

  /** While handling a status, the arcade only ever calls `run()` on its
      machine: it never feeds it input. */
  lemma {:induction false} TookOnlyRuns(b: Behaviour, st: ArcadeState, status: Status, fuel: nat)
    ensures OnlyRuns(st.history, Took(b, st, status, fuel).0.history)
    decreases fuel, 2
  {
    if status.HasOutput? {
      var (reading, item) := NextReading(st.reading, status.out);
      var read := st.(reading := reading);
      if item.None? {
        RanOnlyRuns(b, read, fuel);
      } else {
        var drawn := Drawn(read, item.value.0, item.value.1, item.value.2);
        if drawn.Ok? {
          RanOnlyRuns(b, drawn.value, fuel);
        }
      }
    }
  }

  lemma {:induction false} RanOnlyRuns(b: Behaviour, st: ArcadeState, fuel: nat)
    ensures OnlyRuns(st.history, Ran(b, st, fuel).0.history)
    decreases fuel, 1
  {
    if fuel > 0 {
      var h := st.history + [RunCall];
      var r := Ran(b, st, fuel).0.history;
      TookOnlyRuns(b, st.(history := h), b(h), fuel - 1);
      assert r[..|h|][..|st.history|] == st.history;
    }
  }

  /** What `part1` reports: the block count once the machine has
      stopped, or why it did not stop. */
  function PartOneSpec(b: Behaviour, fuel: nat): Result<nat, Outcome> {
    var (st, outcome) := Ran(b, ArcadeState(0, ReadingX, [], []), fuel);
    if outcome.Stopped? then Ok(CountBlocks(st.screen)) else Err(outcome)
  }

  // ---------------------------------------------------------------------
  // The arcade

  class Arcade {
    const vm: ResumableVm
    var score: int
    var reading: Reading
    var screen: Screen

    ghost predicate Valid()
      reads this, vm
    {
      vm.Valid()
    }

    function State(): ArcadeState
      reads this, vm
    {
      ArcadeState(score, reading, screen, vm.history)
    }

    /** `Arcade::new`, on a fresh machine. */
    constructor New(b: Behaviour)
      requires OutputsI32(b)
      ensures Valid() && fresh(vm) && vm.behaviour == b
      ensures State() == ArcadeState(0, ReadingX, [], [])
    {
      vm := new ResumableVm.New(b);
      score := 0;
      reading := ReadingX;
      screen := [];
    }

    /** `clear`: every tile becomes `Empty`; the screen keeps its shape. */
    method Clear()
      modifies this
      ensures |screen| == |old(screen)|
      ensures forall i :: 0 <= i < |screen| ==> |screen[i]| == |old(screen)[i]|
      ensures Blank(screen)
      ensures score == old(score) && reading == old(reading)
    {
      var i := 0;
      while i < |screen|
        invariant 0 <= i <= |screen| == |old(screen)|
        invariant forall k :: 0 <= k < |screen| ==> |screen[k]| == |old(screen)[k]|
        invariant forall k :: i <= k < |screen| ==> screen[k] == old(screen)[k]
        invariant forall k, j :: 0 <= k < i && 0 <= j < |screen[k]| ==> screen[k][j] == Empty
        invariant score == old(score) && reading == old(reading)
      {
        var row := screen[i];
        var j := 0;
        while j < |row|
          invariant 0 <= j <= |row| == |screen[i]|
          invariant forall m :: 0 <= m < j ==> row[m] == Empty
        {
          row := row[j := Empty];
          j := j + 1;
        }
        screen := screen[i := row];
        i := i + 1;
      }
    }

    /** `set`: grows the screen row by row and row `y` tile by tile, then
        writes `t`. */
    method SetTile(x: nat, y: nat, t: Tile)
      modifies this
      ensures screen == Placed(old(screen), x, y, t)
      ensures score == old(score) && reading == old(reading)
    {
      while |screen| < y + 1
        invariant screen == Grown(old(screen), |screen|, [])
        invariant |screen| <= Max(|old(screen)|, y + 1)
        invariant score == old(score) && reading == old(reading)
        decreases y + 1 - |screen|
      {
        screen := screen + [[]];
      }
      assert screen == Grown(old(screen), y + 1, []);
      var row := screen[y];
      while |row| < x + 1
        invariant row == Grown(screen[y], |row|, Empty)
        invariant |row| <= Max(|screen[y]|, x + 1)
        invariant score == old(score) && reading == old(reading)
        decreases x + 1 - |row|
      {
        row := row + [Empty];
      }
      assert row == Grown(screen[y], x + 1, Empty);
      screen := screen[y := row[x := t]];
    }

    /** `handle_status`. */
    method HandleStatus(status: Status, fuel: nat) returns (r: Outcome)
      requires Valid()
      modifies this, vm
      ensures Valid()
      ensures (State(), r) == Took(vm.behaviour, old(State()), status, fuel)
      decreases fuel, 2
    {
      match status {
        case HasOutput(output) =>
          var (next, item) := NextReading(reading, output);
          reading := next;
          if item.Some? {
            var (x, y, t) := item.value;
            if x == -1 && y == 0 {
              score := t;
            } else {
              var tile := TileOf(t);
              if tile.None? {
                return Crashed(UnknownTile(t));
              }
              if x < 0 || y < 0 {
                return Crashed(OffScreen(x, y));
              }
              SetTile(x, y, tile.value);
            }
          }
          r := Run(fuel);
        case _ =>
          r := Stopped(status);
      }
    }

    /** `run`. */
    method Run(fuel: nat) returns (r: Outcome)
      requires Valid()
      modifies this, vm
      ensures Valid()
      ensures (State(), r) == Ran(vm.behaviour, old(State()), fuel)
      decreases fuel, 1
    {
      if fuel == 0 {
        return OutOfFuel;
      }
      var status := vm.Run();
      r := HandleStatus(status, fuel - 1);
    }

    /** `run_with_input`. */
    method RunWithInput(input: int, fuel: nat) returns (r: Outcome)
      requires Valid()
      modifies this, vm
      ensures Valid()
      ensures (State(), r) == RanWithInput(vm.behaviour, old(State()), input, fuel)
    {
      var status := vm.RunWithInput(input);
      r := HandleStatus(status, fuel);
    }
  }

  /** `part1`: a fresh arcade runs until its machine stops, then the
      blocks on the screen are counted. */
  method PartOne(b: Behaviour, fuel: nat) returns (r: Result<nat, Outcome>)
    requires OutputsI32(b)
    ensures r == PartOneSpec(b, fuel)
  {
    var arcade := new Arcade.New(b);
    var outcome := arcade.Run(fuel);
    if !outcome.Stopped? {
      return Err(outcome);
    }
    r := Ok(CountBlocks(arcade.screen));
  }
}
