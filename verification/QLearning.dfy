/** Q-learning in the grid world of gameai/rl (Agent.py, Environment.py), with exact arithmetic and the fixed start
    state. */
module QLearning {
  import opened Basics

  // ----- Environment.py -----

  /** currentState; `saved` are the flags of survivors 6 and 7, the only ones the eight-element state has room for. */
  datatype World = World(x: int, y: int, alive: bool, ex: int, ey: int, torture: bool, saved6: bool, saved7: bool)

  type Grid = seq<seq<int>>

  /** All rows are equally long and the extremities are walls, as the comment on the map demands. */
  predicate Walled(grid: Grid)
  {
    && |grid| >= 2 && |grid[0]| >= 2
    && (forall y :: 0 <= y < |grid| ==> |grid[y]| == |grid[0]|)
    && (forall x :: 0 <= x < |grid[0]| ==> grid[0][x] == 1 && grid[|grid| - 1][x] == 1)
    && (forall y :: 0 <= y < |grid| ==> grid[y][0] == 1 && grid[y][|grid[0]| - 1] == 1)
  }

  /** A cell of the grid that is not a wall. */
  predicate Open(grid: Grid, x: int, y: int)
  {
    0 <= y < |grid| && 0 <= x < |grid[y]| && grid[y][x] != 1
  }

  predicate Placed(grid: Grid, s: World)
  {
    Open(grid, s.x, s.y) && Open(grid, s.ex, s.ey)
  }

  /** One step in a direction: 0 up, 1 down, 2 left, 3 right; anything else stays. */
  function Toward(x: int, y: int, dir: int): (int, int)
  {
    if dir == 0 then (x, y - 1) else if dir == 1 then (x, y + 1)
    else if dir == 2 then (x - 1, y) else if dir == 3 then (x + 1, y) else (x, y)
  }

  /** The walls all round keep an open cell away from the edges. */
  lemma Interior(grid: Grid, x: int, y: int)
    requires Walled(grid) && Open(grid, x, y)
    ensures 0 < y < |grid| - 1 && 0 < x < |grid[0]| - 1 && forall j :: 0 <= j < |grid| ==> |grid[j]| == |grid[0]|
  {
    assert grid[y][0] == 1 && grid[y][|grid[0]| - 1] == 1;
    assert grid[0][x] == 1 && grid[|grid| - 1][x] == 1;
  }

  function Walk(grid: Grid, x: int, y: int, dir: int): (r: (int, int))
    requires Walled(grid) && Open(grid, x, y)
    ensures Open(grid, r.0, r.1)
  {
    Interior(grid, x, y);
    var (nx, ny) := Toward(x, y, dir);
    if grid[ny][nx] != 1 then (nx, ny) else (x, y)
  }

  /** executeAction; action 4 smashes the enemy if it is here. */
  function ExecuteAction(grid: Grid, s: World, action: int): (s': World)
    requires Walled(grid) && Placed(grid, s)
    ensures Placed(grid, s')
  {
    var (x, y) := Walk(grid, s.x, s.y, action);
    s.(x := x, y := y, alive := s.alive && !(action == 4 && s.x == s.ex && s.y == s.ey))
  }

  /** A living enemy torments a bot it has caught up with, and else moves, whatever decides where to. */
  function EnemyTurn(grid: Grid, s: World, move: Option<int>): (s': World)
    requires Walled(grid) && Placed(grid, s)
    ensures Placed(grid, s')
  {
    if !s.alive then s
    else if s.x == s.ex && s.y == s.ey then s.(torture := true)
    else if move.None? then s.(torture := false)
    else
      var (x, y) := Walk(grid, s.ex, s.ey, move.value);
      s.(torture := false, ex := x, ey := y)
  }

  function Rescue(grid: Grid, s: World): (s': World)
    requires Placed(grid, s)
    ensures Placed(grid, s')
  {
    var cell := grid[s.y][s.x];
    s.(saved6 := s.saved6 || cell == 6, saved7 := s.saved7 || cell == 7)
  }

  function EnvStep(grid: Grid, s: World, action: int, move: Option<int>): (s': World)
    requires Walled(grid) && Placed(grid, s)
    ensures Placed(grid, s')
  {
    Rescue(grid, EnemyTurn(grid, ExecuteAction(grid, s, action), move))
  }

  predicate Terminal(grid: Grid, s: World)
    requires Placed(grid, s)
  {
    grid[s.y][s.x] == 5
  }

  function Reward(grid: Grid, s: World): real
    requires Placed(grid, s)
  {
    var enemy := if s.alive && s.torture then -20.0 else if !s.alive then -10.0 else 0.0;
    var rescued := (if s.saved6 then 20.0 else 0.0) + if s.saved7 then 20.0 else 0.0;
    var cell := grid[s.y][s.x];
    enemy + rescued + if cell == 5 || cell == 4 then 10.0 else if cell == 2 then -20.0 else -1.0
  }

  /** The grid and the start state that are shipped. */
  function ShippedGrid(): Grid
  {
    [[1, 1, 1, 1, 1, 1, 1],
     [1, 0, 2, 6, 1, 7, 1],
     [1, 0, 2, 0, 2, 0, 1],
     [1, 0, 0, 4, 2, 0, 1],
     [1, 1, 1, 1, 1, 1, 1]]
  }

  const START: World := World(1, 1, true, 3, 1, false, false, false)

  lemma ShippedIsWalled()
    ensures Walled(ShippedGrid()) && Placed(ShippedGrid(), START)
  {
  }

  // ----- what a step does, and what it is worth -----

  /** The four neighbours of a cell, and the walls between. */
  lemma WalkIs(grid: Grid, x: int, y: int, dir: int)
    requires Walled(grid) && Open(grid, x, y)
    ensures 0 < y < |grid| - 1 && |grid[y - 1]| == |grid[y]| == |grid[y + 1]| && 0 < x < |grid[y]| - 1
    ensures dir == 0 ==> Walk(grid, x, y, dir) == (x, if grid[y - 1][x] == 1 then y else y - 1)
    ensures dir == 1 ==> Walk(grid, x, y, dir) == (x, if grid[y + 1][x] == 1 then y else y + 1)
    ensures dir == 2 ==> Walk(grid, x, y, dir) == (if grid[y][x - 1] == 1 then x else x - 1, y)
    ensures dir == 3 ==> Walk(grid, x, y, dir) == (if grid[y][x + 1] == 1 then x else x + 1, y)
    ensures dir < 0 || 3 < dir ==> Walk(grid, x, y, dir) == (x, y)
  {
    Interior(grid, x, y);
  }

  predicate Together(s: World)
  {
    s.x == s.ex && s.y == s.ey
  }

  /** The bot goes first: it moves, or smashes an enemy it is together with.  Then a living enemy torments a bot it is
      together with, or else may move.  Then the survivor on the bot's cell is saved. */
  lemma EnvStepIs(grid: Grid, s: World, action: int, move: Option<int>)
    requires Walled(grid) && Placed(grid, s)
    ensures var s' := EnvStep(grid, s, action, move);
            && (s'.x, s'.y) == Walk(grid, s.x, s.y, action)
            && (s'.alive <==> s.alive && !(action == 4 && Together(s)))
            && var met := s'.x == s.ex && s'.y == s.ey;
            && (s'.torture <==> if s'.alive then met else s.torture)
            && (s'.ex, s'.ey) == (if s'.alive && !met && move.Some? then Walk(grid, s.ex, s.ey, move.value)
                                  else (s.ex, s.ey))
            && (s'.saved6 <==> s.saved6 || grid[s'.y][s'.x] == 6) && (s'.saved7 <==> s.saved7 || grid[s'.y][s'.x] == 7)
  {
    WalkIs(grid, s.x, s.y, action);
  }

  /** Torment costs 20, a dead enemy 10, each saved survivor brings 20; and the cell 10 at a goal, -20 in radiation and
      -1 elsewhere. */
  lemma RewardIs(grid: Grid, s: World)
    requires Placed(grid, s)
    ensures s.alive && s.torture ==> Reward(grid, s) == Reward(grid, s.(torture := false)) - 20.0
    ensures !s.alive ==> Reward(grid, s) == Reward(grid, s.(alive := true, torture := false)) - 10.0
    ensures s.saved6 ==> Reward(grid, s) == Reward(grid, s.(saved6 := false)) + 20.0
    ensures s.saved7 ==> Reward(grid, s) == Reward(grid, s.(saved7 := false)) + 20.0
    ensures s.alive && !s.torture && !s.saved6 && !s.saved7
            ==> Reward(grid, s) == match grid[s.y][s.x] case 4 => 10.0 case 5 => 10.0 case 2 => -20.0 case _ => -1.0
  {
  }

  // ----- Agent.py -----

  const GAMMA: real := 0.9
  const RATE: real := 0.5
  const ACTIONS: nat := 5

  type Table = map<World, seq<real>>

  function WithRow(t: Table, s: World): (t': Table)
    ensures s in t' && (s in t ==> t' == t)
  {
    if s in t then t else t[s := [0.0, 0.0, 0.0, 0.0, 0.0]]
  }

  function Max(row: seq<real>): (m: real)
    requires row != []
    ensures m in row && forall k :: 0 <= k < |row| ==> row[k] <= m
  {
    if |row| == 1 then row[0]
    else
      var m := Max(row[..|row| - 1]);
      if row[|row| - 1] > m then row[|row| - 1] else m
  }

  function Updated(t: Table, s': World, s: World, action: nat, reward: real, terminal: bool): Table
    requires s in t && s' in t && t[s'] != [] && action < |t[s]|
  {
    var future := if terminal then 0.0 else GAMMA * Max(t[s']);
    t[s := t[s][action := t[s][action] + RATE * (reward + future - t[s][action])]]
  }

  /** What every table entry stays within: the worst and best reward for ever, discounted. */
  const LOW: real := -400.0
  const HIGH: real := 500.0

  ghost predicate Bounded(t: Table)
  {
    forall s :: s in t ==> |t[s]| == ACTIONS && forall k :: 0 <= k < ACTIONS ==> LOW <= t[s][k] <= HIGH
  }

  lemma RewardInRange(grid: Grid, s: World)
    requires Placed(grid, s)
    ensures -40.0 <= Reward(grid, s) <= 50.0
  {
  }

  function FirstAt(row: seq<real>, v: real): (k: nat)
    requires v in row
    ensures k < |row| && row[k] == v && v !in row[..k]
  {
    if row[0] == v then 0 else FirstAt(row[1..], v) + 1
  }

  /** An action picked at random; None asks for the greedy one. */
  type Pick = p: Option<nat> | p.Some? ==> p.value < ACTIONS witness None

  /** What chance and the enemy decide in one step. */
  datatype Choice = Choice(pick: Pick, move: Option<int>)

  /** egreedy. */
  function ActionOf(t: Table, s: World, pick: Pick): (a: nat)
    requires Bounded(t)
    ensures a < ACTIONS
  {
    if pick.Some? then pick.value
    else
      var row := WithRow(t, s)[s];
      FirstAt(row, Max(row))
  }

  function LearnStep(grid: Grid, t: Table, s: World, c: Choice): (r: (Table, World))
    requires Walled(grid) && Placed(grid, s) && Bounded(t)
    ensures Placed(grid, r.1)
  {
    var action := ActionOf(t, s, c.pick);
    var s' := EnvStep(grid, s, action, c.move);
    var t1 := WithRow(WithRow(t, s), s');
    (Updated(t1, s', s, action, Reward(grid, s'), Terminal(grid, s')), s')
  }

  lemma UpdateStaysBounded(t: Table, s': World, s: World, action: nat, reward: real, terminal: bool)
    requires Bounded(t) && s in t && s' in t && action < ACTIONS && -40.0 <= reward <= 50.0
    ensures Bounded(Updated(t, s', s, action, reward, terminal))
  {
    var future := if terminal then 0.0 else GAMMA * Max(t[s']);
    var before := t[s][action];
    var v := before + RATE * (reward + future - before);
    assert LOW <= Max(t[s']) <= HIGH;
    assert GAMMA * LOW <= future <= GAMMA * HIGH;
    assert LOW <= v <= HIGH;
  }

  /** The entry of the state and action moves half the way to what was found: the reward, and nine tenths of the best
      entry of the next state unless that ends the episode.  No other entry changes. */
  lemma UpdateIs(t: Table, s': World, s: World, action: nat, reward: real, terminal: bool, best: real)
    requires s in t && s' in t && action < |t[s]|
    requires best in t[s'] && forall k :: 0 <= k < |t[s']| ==> t[s'][k] <= best
    ensures var t' := Updated(t, s', s, action, reward, terminal);
            && t'.Keys == t.Keys && (forall w :: w in t && w != s ==> t'[w] == t[w]) && |t'[s]| == |t[s]|
            && (forall k :: 0 <= k < |t[s]| && k != action ==> t'[s][k] == t[s][k])
            && (!terminal ==> t'[s][action] == (t[s][action] + (reward + 0.9 * best)) / 2.0)
            && (terminal ==> t'[s][action] == (t[s][action] + reward) / 2.0)
  {
    assert Max(t[s']) == best;
  }

  /** The greedy action is the first of the best ones; in a state not met before it is the first. */
  lemma GreedyIs(t: Table, s: World)
    requires Bounded(t)
    ensures var a := ActionOf(t, s, None);
            if s in t then forall k :: 0 <= k < ACTIONS ==> t[s][k] <= t[s][a] && (k < a ==> t[s][k] < t[s][a])
            else a == 0
  {
    var row := WithRow(t, s)[s];
    var a := ActionOf(t, s, None);
    forall k | 0 <= k < a
      ensures row[k] < row[a]
    {
      assert row[k] in row[..a];
    }
  }

  lemma RowStaysBounded(t: Table, s: World)
    requires Bounded(t)
    ensures Bounded(WithRow(t, s))
  {
  }

  lemma StepStaysBounded(grid: Grid, t: Table, s: World, c: Choice)
    requires Walled(grid) && Placed(grid, s) && Bounded(t)
    ensures Bounded(LearnStep(grid, t, s, c).0)
  {
    var action := ActionOf(t, s, c.pick);
    var s' := EnvStep(grid, s, action, c.move);
    RewardInRange(grid, s');
    RowStaysBounded(t, s);
    RowStaysBounded(WithRow(t, s), s');
    UpdateStaysBounded(WithRow(WithRow(t, s), s'), s', s, action, Reward(grid, s'), Terminal(grid, s'));
  }

  function Entry(t: Table, s: World, a: nat): real
    requires Bounded(t) && a < ACTIONS
  {
    if s in t then t[s][a] else 0.0
  }

  /** One turn: the entry of the present state and the action taken learns from the reward of the state that follows
      and, unless that state is the terminal goal, from its best entry. */
  lemma LearnStepIs(grid: Grid, t: Table, s: World, c: Choice, best: real)
    requires Walled(grid) && Placed(grid, s) && Bounded(t)
    requires IsBest(t, EnvStep(grid, s, ActionOf(t, s, c.pick), c.move), best)
    ensures var a := ActionOf(t, s, c.pick); var (t', s') := LearnStep(grid, t, s, c);
            && s' == EnvStep(grid, s, a, c.move) && s in t' && |t'[s]| == ACTIONS
            && t'[s][a] == (Entry(t, s, a) + Reward(grid, s')
                            + if grid[s'.y][s'.x] == 5 then 0.0 else 0.9 * best) / 2.0
  {
    var a := ActionOf(t, s, c.pick);
    var s' := EnvStep(grid, s, a, c.move);
    Learns(t, s, s', a, Reward(grid, s'), Terminal(grid, s'), best);
  }

  ghost predicate IsBest(t: Table, s: World, best: real)
    requires Bounded(t)
  {
    && (forall a :: 0 <= a < ACTIONS ==> Entry(t, s, a) <= best)
    && exists a :: 0 <= a < ACTIONS && Entry(t, s, a) == best
  }

  /** With rows for both states. */
  lemma RowsAre(t: Table, s: World, s': World) returns (t1: Table)
    requires Bounded(t)
    ensures t1 == WithRow(WithRow(t, s), s') && Bounded(t1) && s in t1 && s' in t1
    ensures forall a :: 0 <= a < ACTIONS ==> t1[s][a] == Entry(t, s, a) && t1[s'][a] == Entry(t, s', a)
  {
    t1 := WithRow(WithRow(t, s), s');
    RowStaysBounded(t, s);
    RowStaysBounded(WithRow(t, s), s');
  }

  lemma Learns(t: Table, s: World, s': World, a: nat, reward: real, terminal: bool, best: real)
    requires Bounded(t) && a < ACTIONS && IsBest(t, s', best)
    ensures var t1 := WithRow(WithRow(t, s), s');
            && s in t1 && s' in t1 && |t1[s]| == |t1[s']| == ACTIONS
            && var t' := Updated(t1, s', s, a, reward, terminal);
               && s in t' && |t'[s]| == ACTIONS
               && t'[s][a] == (Entry(t, s, a) + reward + if terminal then 0.0 else 0.9 * best) / 2.0
  {
    var t1 := RowsAre(t, s, s');
    var k :| 0 <= k < ACTIONS && Entry(t, s', k) == best;
    assert t1[s'][k] == best;
    UpdateIs(t1, s', s, a, reward, terminal, best);
  }

  const NUMSTEPS: nat := 500

  /** An episode from s on: it ends after reaching a terminal state, after numSteps steps, or where the choices end. */
  function Episode(grid: Grid, t: Table, s: World, over: bool, count: nat, choices: seq<Choice>): (r: (Table, World))
    requires Walled(grid) && Placed(grid, s) && Bounded(t)
    ensures Bounded(r.0) && Placed(grid, r.1)
    decreases |choices|
  {
    if choices == [] || over || count >= NUMSTEPS then (t, s)
    else
      StepStaysBounded(grid, t, s, choices[0]);
      var (t1, s1) := LearnStep(grid, t, s, choices[0]);
      Episode(grid, t1, s1, Terminal(grid, s1), count + 1, choices[1..])
  }

  /** An episode goes on exactly until the terminal goal is reached, the step limit, or the end of the choices. */
  lemma EpisodeIs(grid: Grid, t: Table, s: World, count: nat, choices: seq<Choice>)
    requires Walled(grid) && Placed(grid, s) && Bounded(t) && choices != [] && count < 500
    ensures var (t1, s1) := LearnStep(grid, t, s, choices[0]);
            && Placed(grid, s1) && Bounded(t1)
            && Episode(grid, t, s, false, count, choices)
               == if grid[s1.y][s1.x] == 5 || count + 1 == 500 || |choices| == 1 then (t1, s1)
                  else Episode(grid, t1, s1, false, count + 1, choices[1..])
  {
    StepStaysBounded(grid, t, s, choices[0]);
  }

  /** Any number of episodes, each from the start state: no entry ever leaves the bounds, and nobody enters a wall. */
  function Training(grid: Grid, t: Table, start: World, episodes: seq<seq<Choice>>): (t': Table)
    requires Walled(grid) && Placed(grid, start) && Bounded(t)
    ensures Bounded(t')
    decreases |episodes|
  {
    if episodes == [] then t
    else Training(grid, Episode(grid, t, start, false, 0, episodes[0]).0, start, episodes[1..])
  }

  // ----- the agent's own loops -----

  class Agent {
    var vTable: Table

    constructor ()
      ensures vTable == map[]
    {
      vTable := map[];
    }

    method InitializeVtableStateEntry(s: World)
      modifies this
      ensures vTable == WithRow(old(vTable), s)
    {
      if s !in vTable {
        vTable := vTable[s := [0.0, 0.0, 0.0, 0.0, 0.0]];
      }
    }

    method UpdateVtable(s': World, s: World, action: nat, reward: real, terminal: bool)
      requires s in vTable && s' in vTable && vTable[s'] != [] && action < |vTable[s]|
      modifies this
      ensures vTable == Updated(old(vTable), s', s, action, reward, terminal)
    {
      var future := 0.0;
      var before := vTable[s][action];
      if !terminal {
        future := GAMMA * Max(vTable[s']);
      }
      var delta := RATE * (reward + future - before);
      vTable := vTable[s := vTable[s][action := before + delta]];
    }

    /** The first of the best actions. */
    method Greedy(s: World) returns (best: nat)
      requires Bounded(vTable)
      modifies this
      ensures vTable == WithRow(old(vTable), s) && best == ActionOf(old(vTable), s, None)
    {
      InitializeVtableStateEntry(s);
      var row := vTable[s];
      var maxValue := Max(row);
      best := 0;
      while row[best] != maxValue
        invariant best < |row| && best <= FirstAt(row, maxValue) && vTable == WithRow(old(vTable), s)
        decreases |row| - best
      {
        NotBefore(row, maxValue, best);
        best := best + 1;
      }
      NotBefore(row, maxValue, best);
    }

    /** One turn of qLearn's loop. */
    method Learn(grid: Grid, s: World, c: Choice) returns (s': World)
      requires Walled(grid) && Placed(grid, s) && Bounded(vTable)
      modifies this
      ensures (vTable, s') == LearnStep(grid, old(vTable), s, c)
    {
      InitializeVtableStateEntry(s);
      RowStaysBounded(old(vTable), s);
      var action;
      if c.pick.Some? {
        action := c.pick.value;
      } else {
        action := Greedy(s);
      }
      s' := EnvStep(grid, s, action, c.move);
      InitializeVtableStateEntry(s');
      RowStaysBounded(WithRow(old(vTable), s), s');
      UpdateVtable(s', s, action, Reward(grid, s'), Terminal(grid, s'));
    }

    /** qLearn for one episode in the given world. */
    method QLearn(grid: Grid, start: World, choices: seq<Choice>) returns (s: World)
      requires Walled(grid) && Placed(grid, start) && Bounded(vTable)
      modifies this
      ensures Bounded(vTable) && (vTable, s) == Episode(grid, old(vTable), start, false, 0, choices)
    {
      s := start;
      var over, count := false, 0;
      assert choices[0..] == choices;
      while !over && count < NUMSTEPS && count < |choices|
        invariant count <= |choices| && Placed(grid, s) && Bounded(vTable)
        invariant Episode(grid, vTable, s, over, count, choices[count..])
                  == Episode(grid, old(vTable), start, false, 0, choices)
      {
        var c := choices[count];
        assert choices[count..][0] == c && choices[count..][1..] == choices[count + 1..];
        StepStaysBounded(grid, vTable, s, c);
        s := Learn(grid, s, c);
        over := Terminal(grid, s);
        count := count + 1;
      }
    }
  }

  lemma NotBefore(row: seq<real>, v: real, k: nat)
    requires v in row && k <= FirstAt(row, v)
    ensures row[k] == v <==> k == FirstAt(row, v)
  {
    if k < FirstAt(row, v) {
      assert row[k] in row[..FirstAt(row, v)];
    }
  }
}
