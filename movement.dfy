/**
 * One server tick for one player, stated on values: the movement step, then
 * collection of pellets and power pellets near the player's new position.
 * The in-place server in module Server is proved to compute exactly these
 * functions.
 */
module Movement {
  import opened MazeGrid

  /** Units moved per tick (0.05 tile). */
  const PlayerSpeed := 1
  const PelletPoints := 10
  const PowerPelletPoints := 50
  /** A new player starts at the centre of tile (1, 1). */
  const SpawnX := 30
  const SpawnY := 30

  /**
   * A JSON value as far as the server looks at it: Null stands for both null
   * and a missing property, Text for a string, NonText for anything else.
   */
  datatype Field = Null | Text(s: string) | NonText

  /** A direction the movement step recognises: "up", "down", "left" or "right". */
  predicate IsDirectionName(d: Field) {
    d == Text("up") || d == Text("down") || d == Text("left") || d == Text("right")
  }

  /** Offset of one movement step, in units; screen coordinates, so "up" decreases y. */
  function Delta(d: Field): (r: (int, int))
    ensures IsDirectionName(d) <==> r != (0, 0)
    ensures r.0 == 0 || r.1 == 0
    ensures -PlayerSpeed <= r.0 <= PlayerSpeed && -PlayerSpeed <= r.1 <= PlayerSpeed
  {
    if d == Text("up") then (0, -PlayerSpeed)
    else if d == Text("down") then (0, PlayerSpeed)
    else if d == Text("left") then (-PlayerSpeed, 0)
    else if d == Text("right") then (PlayerSpeed, 0)
    else (0, 0)
  }

  /** The part of a player that a tick reads or writes. */
  datatype PlayerView = PlayerView(x: int, y: int, score: int, direction: Field, poweredUp: bool)

  /** The movement step: advance to the prospective point unless it is a wall. */
  function Move(grid: seq<seq<int>>, v: PlayerView): (r: PlayerView)
    ensures r.direction == v.direction && r.score == v.score && r.poweredUp == v.poweredUp
    ensures r.x == v.x || r.y == v.y
    ensures (r.x, r.y) == (v.x, v.y) || (r.x, r.y) == (v.x + Delta(v.direction).0, v.y + Delta(v.direction).1)
    ensures !IsDirectionName(v.direction) ==> r == v
    ensures IsWall(grid, v.x + Delta(v.direction).0, v.y + Delta(v.direction).1) ==> r == v
    ensures !IsWall(grid, v.x, v.y) ==> !IsWall(grid, r.x, r.y)
  {
    var (dx, dy) := Delta(v.direction);
    if IsWall(grid, v.x + dx, v.y + dy) then v else v.(x := v.x + dx, y := v.y + dy)
  }

  /** A moving player takes exactly one step of PlayerSpeed in its named direction when the target is open. */
  lemma MoveAdvances(grid: seq<seq<int>>, v: PlayerView)
    requires IsDirectionName(v.direction)
    requires !IsWall(grid, v.x + Delta(v.direction).0, v.y + Delta(v.direction).1)
    ensures (if Move(grid, v).x < v.x then v.x - Move(grid, v).x else Move(grid, v).x - v.x)
          + (if Move(grid, v).y < v.y then v.y - Move(grid, v).y else Move(grid, v).y - v.y) == PlayerSpeed
  {
  }

  /**
   * The pellet centred in tile p lies strictly less than half a tile (10 units)
   * from (x, y). Only a player inside tile p itself can be that close.
   */
  predicate Near(p: Pellet, x: int, y: int)
    ensures Near(p, x, y) ==> TileOf(x) == p.x && TileOf(y) == p.y
  {
    var dx, dy := x - (TileSize * p.x + TileSize / 2), y - (TileSize * p.y + TileSize / 2);
    SquaresBelowHalfTile(dx, dy);
    dx * dx + dy * dy < (TileSize / 2) * (TileSize / 2)
  }

  /** A squared distance below 10 * 10 bounds each component strictly by 10. */
  lemma SquaresBelowHalfTile(dx: int, dy: int)
    ensures dx * dx + dy * dy < (TileSize / 2) * (TileSize / 2) ==>
              -(TileSize / 2) < dx < TileSize / 2 && -(TileSize / 2) < dy < TileSize / 2
  {
    if dx >= TileSize / 2 {
      assert dx * dx >= (TileSize / 2) * dx;
    } else if dx <= -(TileSize / 2) {
      assert dx * dx >= -(TileSize / 2) * dx;
    }
    if dy >= TileSize / 2 {
      assert dy * dy >= (TileSize / 2) * dy;
    } else if dy <= -(TileSize / 2) {
      assert dy * dy >= -(TileSize / 2) * dy;
    }
  }

  /** The pellets that survive collection by a player at (x, y), in their original order. */
  function Keep(s: seq<Pellet>, x: int, y: int): (r: seq<Pellet>)
    ensures |r| <= |s|
  {
    if s == [] then []
    else (if Near(s[0], x, y) then [] else [s[0]]) + Keep(s[1..], x, y)
  }

  /** How many pellets a player at (x, y) collects from s. */
  function Eaten(s: seq<Pellet>, x: int, y: int): (n: nat)
    ensures n + |Keep(s, x, y)| == |s|
    ensures n == 0 <==> Keep(s, x, y) == s
  {
    if s == [] then 0
    else (if Near(s[0], x, y) then 1 else 0) + Eaten(s[1..], x, y)
  }

  /** Collection over a suffix, one element at a time (the server scans from the back). */
  lemma CollectFrom(s: seq<Pellet>, i: nat, x: int, y: int)
    requires i < |s|
    ensures Keep(s[i..], x, y) == (if Near(s[i], x, y) then [] else [s[i]]) + Keep(s[i + 1..], x, y)
    ensures Eaten(s[i..], x, y) == (if Near(s[i], x, y) then 1 else 0) + Eaten(s[i + 1..], x, y)
  {
    assert s[i..][0] == s[i] && s[i..][1..] == s[i + 1..];
  }

  /**
   * One iteration of the backward scan: with s[..i + 1] still untouched in
   * front of the survivors of s[i + 1..], element i is s[i], and deleting
   * it when near (or keeping it otherwise) leaves the survivors of s[i..].
   */
  lemma CollectStep(s: seq<Pellet>, i: nat, x: int, y: int, cur: seq<Pellet>)
    requires i < |s| && cur == s[..i + 1] + Keep(s[i + 1..], x, y)
    ensures i < |cur| && cur[i] == s[i]
    ensures Near(s[i], x, y) ==> cur[..i] + cur[i + 1..] == s[..i] + Keep(s[i..], x, y)
    ensures !Near(s[i], x, y) ==> cur == s[..i] + Keep(s[i..], x, y)
    ensures Eaten(s[i..], x, y) == (if Near(s[i], x, y) then 1 else 0) + Eaten(s[i + 1..], x, y)
  {
    CollectFrom(s, i, x, y);
    SplitAt(s, i, cur, Keep(s[i + 1..], x, y));
  }

  /** Element i of s[..i + 1] + rest is s[i]; around it lie s[..i] and rest. */
  lemma SplitAt<T>(s: seq<T>, i: nat, cur: seq<T>, rest: seq<T>)
    requires i < |s| && cur == s[..i + 1] + rest
    ensures i < |cur| && cur[i] == s[i]
    ensures cur[..i] + cur[i + 1..] == s[..i] + rest
    ensures cur == s[..i] + ([s[i]] + rest)
  {
    assert s[..i + 1] == s[..i] + [s[i]];
    assert cur[..i] == s[..i];
    assert cur[i + 1..] == rest;
  }

  /** Every pellet of s that is not near (x, y) survives. */
  lemma {:induction false} KeepMembers(s: seq<Pellet>, x: int, y: int, p: Pellet)
    ensures p in Keep(s, x, y) <==> p in s && !Near(p, x, y)
  {
    if s != [] {
      KeepMembers(s[1..], x, y, p);
      assert s == [s[0]] + s[1..];
    }
  }

  /** a is obtained from b by deleting elements (relative order is kept). */
  predicate Subsequence<T(==)>(a: seq<T>, b: seq<T>)
    decreases |b|
  {
    if a == [] then true
    else if b == [] then false
    else if a[0] == b[0] then Subsequence(a[1..], b[1..])
    else Subsequence(a, b[1..])
  }

  lemma {:induction false} KeepIsSubsequence(s: seq<Pellet>, x: int, y: int)
    ensures Subsequence(Keep(s, x, y), s)
  {
    if s != [] {
      KeepIsSubsequence(s[1..], x, y);
      var k := Keep(s[1..], x, y);
      if Near(s[0], x, y) {
        assert Keep(s, x, y) == k;
        SubsequenceDropFront(k, s);
      } else {
        assert Keep(s, x, y) == [s[0]] + k;
        assert ([s[0]] + k)[1..] == k;
      }
    }
  }

  /** If a is a subsequence of b's tail, it is a subsequence of b. */
  lemma {:induction false} SubsequenceDropFront<T>(a: seq<T>, b: seq<T>)
    requires b != [] && Subsequence(a, b[1..])
    ensures Subsequence(a, b)
    decreases |b|, 0
  {
    if a != [] && a[0] == b[0] {
      SubsequenceTail(a, b[1..]);
    }
  }

  /** Dropping the head of a subsequence keeps it a subsequence. */
  lemma {:induction false} SubsequenceTail<T>(a: seq<T>, b: seq<T>)
    requires a != [] && Subsequence(a, b)
    ensures Subsequence(a[1..], b)
    decreases |b|, 1
  {
    if a[0] == b[0] {
      SubsequenceDropFront(a[1..], b);
    } else {
      SubsequenceTail(a, b[1..]);
      SubsequenceDropFront(a[1..], b);
    }
  }

  lemma {:induction false} SubsequenceTransitive<T>(a: seq<T>, b: seq<T>, c: seq<T>)
    requires Subsequence(a, b) && Subsequence(b, c)
    ensures Subsequence(a, c)
    decreases |c|
  {
    if a != [] {
      assert b != [];
      assert c != [];
      if b[0] == c[0] {
        if a[0] == b[0] {
          SubsequenceTransitive(a[1..], b[1..], c[1..]);
        } else {
          SubsequenceTransitive(a, b[1..], c[1..]);
          SubsequenceDropFront(a, c);
        }
      } else {
        SubsequenceTransitive(a, b, c[1..]);
        SubsequenceDropFront(a, c);
      }
    }
  }

  /** Collecting twice from the same point collects nothing more. */
  lemma {:induction false} KeepIdempotent(s: seq<Pellet>, x: int, y: int)
    ensures Keep(Keep(s, x, y), x, y) == Keep(s, x, y)
  {
    if s != [] {
      KeepIdempotent(s[1..], x, y);
      var k := Keep(s[1..], x, y);
      if Near(s[0], x, y) {
        assert Keep(s, x, y) == k;
      } else {
        var t := [s[0]] + k;
        assert Keep(s, x, y) == t;
        assert t[0] == s[0] && t[1..] == k;
        assert Keep(t, x, y) == [s[0]] + Keep(k, x, y);
      }
    }
  }

  /** What a tick produces for one player and the pellet lists it leaves for the next. */
  datatype StepResult = StepResult(player: PlayerView, pellets: seq<Pellet>, powerPellets: seq<Pellet>)

  /**
   * One player's share of a tick: move, then collect pellets (10 points each),
   * then power pellets (50 points each, and the player becomes powered up).
   */
  function StepPlayer(grid: seq<seq<int>>, v: PlayerView, pellets: seq<Pellet>, power: seq<Pellet>): (r: StepResult)
    ensures r.player.direction == v.direction
    ensures (r.player.x, r.player.y) == (Move(grid, v).x, Move(grid, v).y)
    ensures r.player.score == v.score + PelletPoints * (|pellets| - |r.pellets|)
                                      + PowerPelletPoints * (|power| - |r.powerPellets|)
    ensures |r.pellets| <= |pellets| && |r.powerPellets| <= |power|
    ensures r.player.score >= v.score
    ensures r.player.poweredUp == (v.poweredUp || |r.powerPellets| < |power|)
    ensures !IsWall(grid, v.x, v.y) ==> !IsWall(grid, r.player.x, r.player.y)
  {
    var m := Move(grid, v);
    var n, k := Eaten(pellets, m.x, m.y), Eaten(power, m.x, m.y);
    StepResult(
      m.(score := m.score + PelletPoints * n + PowerPelletPoints * k, poweredUp := m.poweredUp || k > 0),
      Keep(pellets, m.x, m.y),
      Keep(power, m.x, m.y))
  }

  /** After a player's step, a pellet of either kind remains exactly when it was there and is out of the player's reach. */
  lemma StepPlayerMembers(grid: seq<seq<int>>, v: PlayerView, pellets: seq<Pellet>, power: seq<Pellet>, p: Pellet)
    ensures var r := StepPlayer(grid, v, pellets, power);
      (p in r.pellets <==> p in pellets && !Near(p, r.player.x, r.player.y)) &&
      (p in r.powerPellets <==> p in power && !Near(p, r.player.x, r.player.y))
  {
    var m := Move(grid, v);
    KeepMembers(pellets, m.x, m.y, p);
    KeepMembers(power, m.x, m.y, p);
  }

  /** The whole tick: players take their steps in list order, sharing the pellet lists. */
  datatype TickResult = TickResult(players: seq<PlayerView>, pellets: seq<Pellet>, powerPellets: seq<Pellet>)

  function Tick(grid: seq<seq<int>>, vs: seq<PlayerView>, pellets: seq<Pellet>, power: seq<Pellet>): (r: TickResult)
    ensures |r.players| == |vs|
    ensures |r.pellets| <= |pellets| && |r.powerPellets| <= |power|
  {
    if vs == [] then TickResult([], pellets, power)
    else Extend(grid, Tick(grid, vs[..|vs| - 1], pellets, power), vs[|vs| - 1])
  }

  /** The next player's step appended to a partial tick. */
  function Extend(grid: seq<seq<int>>, done: TickResult, v: PlayerView): (r: TickResult)
    ensures |r.players| == |done.players| + 1
    ensures |r.pellets| <= |done.pellets| && |r.powerPellets| <= |done.powerPellets|
  {
    var s := StepPlayer(grid, v, done.pellets, done.powerPellets);
    TickResult(done.players + [s.player], s.pellets, s.powerPellets)
  }

  /** The tick over the first i + 1 players is the tick over the first i extended by player i's step. */
  lemma TickExtend(grid: seq<seq<int>>, vs: seq<PlayerView>, i: nat, pellets: seq<Pellet>, power: seq<Pellet>)
    requires i < |vs|
    ensures Tick(grid, vs[..i + 1], pellets, power) == Extend(grid, Tick(grid, vs[..i], pellets, power), vs[i])
  {
    assert vs[..i + 1][..i] == vs[..i];
  }

  /** A tick never lowers a player's score and never changes a direction. */
  lemma {:induction false} TickScoresNeverDecrease(grid: seq<seq<int>>, vs: seq<PlayerView>, pellets: seq<Pellet>, power: seq<Pellet>)
    ensures forall j :: 0 <= j < |vs| ==>
              Tick(grid, vs, pellets, power).players[j].score >= vs[j].score &&
              Tick(grid, vs, pellets, power).players[j].direction == vs[j].direction
  {
    if vs != [] {
      var front := vs[..|vs| - 1];
      TickScoresNeverDecrease(grid, front, pellets, power);
      var b := Tick(grid, front, pellets, power);
      var s := StepPlayer(grid, vs[|vs| - 1], b.pellets, b.powerPellets);
      assert Tick(grid, vs, pellets, power) == Extend(grid, b, vs[|vs| - 1]);
      assert Tick(grid, vs, pellets, power).players == b.players + [s.player];
      forall j | 0 <= j < |vs|
        ensures Tick(grid, vs, pellets, power).players[j].score >= vs[j].score
        ensures Tick(grid, vs, pellets, power).players[j].direction == vs[j].direction
      {
        if j < |vs| - 1 {
          assert vs[j] == front[j];
        }
      }
    }
  }

  ghost predicate NoneInWall(grid: seq<seq<int>>, vs: seq<PlayerView>) {
    forall j :: 0 <= j < |vs| ==> !IsWall(grid, vs[j].x, vs[j].y)
  }

  /** A player whose point is outside every wall before a tick is outside every wall after it. */
  lemma {:induction false} TickKeepsPlayersOutOfWalls(grid: seq<seq<int>>, vs: seq<PlayerView>, pellets: seq<Pellet>, power: seq<Pellet>)
    requires NoneInWall(grid, vs)
    ensures NoneInWall(grid, Tick(grid, vs, pellets, power).players)
  {
    if vs != [] {
      TickKeepsPlayersOutOfWalls(grid, vs[..|vs| - 1], pellets, power);
    }
  }

  function TotalScore(vs: seq<PlayerView>): int {
    if vs == [] then 0 else TotalScore(vs[..|vs| - 1]) + vs[|vs| - 1].score
  }

  /** Every point gained in a tick is paid for by a pellet (10) or power pellet (50) that disappeared. */
  lemma {:induction false} TickConservesPoints(grid: seq<seq<int>>, vs: seq<PlayerView>, pellets: seq<Pellet>, power: seq<Pellet>)
    ensures var r := Tick(grid, vs, pellets, power);
      TotalScore(r.players) == TotalScore(vs) + PelletPoints * (|pellets| - |r.pellets|)
                                              + PowerPelletPoints * (|power| - |r.powerPellets|)
  {
    if vs != [] {
      var front := vs[..|vs| - 1];
      TickConservesPoints(grid, front, pellets, power);
      var r := Tick(grid, vs, pellets, power);
      assert r.players[..|vs| - 1] == Tick(grid, front, pellets, power).players;
    }
  }

  /** What remains after a tick is what was there, in the same order, less what was collected. */
  lemma {:induction false} TickKeepsOrder(grid: seq<seq<int>>, vs: seq<PlayerView>, pellets: seq<Pellet>, power: seq<Pellet>)
    ensures var r := Tick(grid, vs, pellets, power);
      Subsequence(r.pellets, pellets) && Subsequence(r.powerPellets, power)
  {
    if vs == [] {
      SubsequenceReflexive(pellets);
      SubsequenceReflexive(power);
    } else {
      var front := vs[..|vs| - 1];
      TickKeepsOrder(grid, front, pellets, power);
      var b := Tick(grid, front, pellets, power);
      var mv := Move(grid, vs[|vs| - 1]);
      var r := Tick(grid, vs, pellets, power);
      assert r.pellets == Keep(b.pellets, mv.x, mv.y) && r.powerPellets == Keep(b.powerPellets, mv.x, mv.y);
      KeepIsSubsequence(b.pellets, mv.x, mv.y);
      KeepIsSubsequence(b.powerPellets, mv.x, mv.y);
      SubsequenceTransitive(r.pellets, b.pellets, pellets);
      SubsequenceTransitive(r.powerPellets, b.powerPellets, power);
    }
  }

  /** No pellet of ps lies within reach of any of the players vs. */
  ghost predicate OutOfReach(ps: seq<Pellet>, vs: seq<PlayerView>) {
    forall p, j :: p in ps && 0 <= j < |vs| ==> !Near(p, vs[j].x, vs[j].y)
  }

  /** After a tick, no remaining pellet or power pellet lies within reach of any player. */
  lemma {:induction false} TickLeavesNothingInReach(grid: seq<seq<int>>, vs: seq<PlayerView>, pellets: seq<Pellet>, power: seq<Pellet>)
    ensures var r := Tick(grid, vs, pellets, power);
      OutOfReach(r.pellets, r.players) && OutOfReach(r.powerPellets, r.players)
  {
    if vs != [] {
      var front := vs[..|vs| - 1];
      TickLeavesNothingInReach(grid, front, pellets, power);
      var b := Tick(grid, front, pellets, power);
      var v := vs[|vs| - 1];
      var s := StepPlayer(grid, v, b.pellets, b.powerPellets);
      var r := Tick(grid, vs, pellets, power);
      assert r.players == b.players + [s.player];
      StepKeepsOutOfReach(grid, v, b, s);
    }
  }

  /** One step keeps earlier players out of reach and puts the stepping player out of reach too. */
  lemma StepKeepsOutOfReach(grid: seq<seq<int>>, v: PlayerView, b: TickResult, s: StepResult)
    requires OutOfReach(b.pellets, b.players) && OutOfReach(b.powerPellets, b.players)
    requires s == StepPlayer(grid, v, b.pellets, b.powerPellets)
    ensures OutOfReach(s.pellets, b.players + [s.player]) && OutOfReach(s.powerPellets, b.players + [s.player])
  {
    var all := b.players + [s.player];
    forall p, j | p in s.pellets && 0 <= j < |all| ensures !Near(p, all[j].x, all[j].y) {
      StepPlayerMembers(grid, v, b.pellets, b.powerPellets, p);
      if j < |b.players| {
        assert all[j] == b.players[j];
      }
    }
    forall p, j | p in s.powerPellets && 0 <= j < |all| ensures !Near(p, all[j].x, all[j].y) {
      StepPlayerMembers(grid, v, b.pellets, b.powerPellets, p);
      if j < |b.players| {
        assert all[j] == b.players[j];
      }
    }
  }

  lemma {:induction false} SubsequenceReflexive<T>(s: seq<T>)
    ensures Subsequence(s, s)
  {
    if s != [] {
      SubsequenceReflexive(s[1..]);
    }
  }
}
