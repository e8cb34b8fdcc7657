/**
 * The server's mutable game state: the player records, the two pellet lists
 * and the game-loop flag, with the tick and the connection handlers that
 * change them.
 */
module Server {
  import opened Wrappers
  import opened MazeGrid
  import opened Movement

  /** A connected player. The connection handler keeps a reference to it. */
  class Player {
    const id: int
    const color: string
    var x: int
    var y: int
    var lives: int
    var score: int
    var direction: Field
    var poweredUp: bool

    /** The record created when a client connects; `id` is the server's clock reading. */
    constructor (id: int)
      ensures this.id == id && color == "yellow" && lives == 3
      ensures View() == PlayerView(SpawnX, SpawnY, 0, Null, false)
    {
      this.id, color := id, "yellow";
      x, y, lives, score, direction, poweredUp := SpawnX, SpawnY, 3, 0, Null, false;
    }

    /** The fields a tick reads and writes. */
    function View(): PlayerView
      reads this
    {
      PlayerView(x, y, score, direction, poweredUp)
    }

    /**
     * The handler for a message from this player's connection: a message whose
     * `type` is "input" replaces the direction with the message's `direction`
     * (Null when the message has none); any other message changes nothing.
     */
    method ReceiveMessage(msgType: Field, msgDirection: Field)
      modifies this`direction
      ensures direction == if msgType == Text("input") then msgDirection else old(direction)
    {
      if msgType == Text("input") {
        direction := msgDirection;
      }
    }
  }

  /** The tick-relevant state of every player, in list order. */
  function Views(ps: seq<Player>): (r: seq<PlayerView>)
    reads ps
    ensures |r| == |ps|
    ensures forall i :: 0 <= i < |ps| ==> r[i] == ps[i].View()
  {
    if ps == [] then [] else Views(ps[..|ps| - 1]) + [ps[|ps| - 1].View()]
  }

  function Ids(ps: seq<Player>): (r: seq<int>)
    ensures |r| == |ps| && forall i :: 0 <= i < |ps| ==> r[i] == ps[i].id
  {
    seq(|ps|, i requires 0 <= i < |ps| => ps[i].id)
  }

  /** The index of the first entry equal to `id` (Array.prototype.findIndex), or None. */
  function FirstIndex(ids: seq<int>, id: int): (r: Option<nat>)
    ensures r.Some? ==> r.value < |ids| && ids[r.value] == id
    ensures r.Some? ==> forall j :: 0 <= j < r.value ==> ids[j] != id
    ensures r.None? <==> id !in ids
  {
    if ids == [] then None
    else if ids[0] == id then Some(0)
    else match FirstIndex(ids[1..], id)
      case None => None
      case Some(k) => Some(k + 1)
  }

  /** With pairwise distinct ids, the id of entry i leads back to entry i. */
  lemma FirstIndexOfDistinct(ids: seq<int>, i: nat)
    requires i < |ids|
    requires forall a, b :: 0 <= a < b < |ids| ==> ids[a] != ids[b]
    ensures FirstIndex(ids, ids[i]) == Some(i)
  {
  }

  /** A player that connected with a fresh id is the one its own close handler finds. */
  lemma {:induction false} FirstIndexOfAppended(ids: seq<int>, id: int)
    requires id !in ids
    ensures FirstIndex(ids + [id], id) == Some(|ids|)
  {
    if ids != [] {
      assert (ids + [id])[1..] == ids[1..] + [id];
      FirstIndexOfAppended(ids[1..], id);
    }
  }

  /**
   * Two connections that read the same clock value share an id; closing the
   * later one then removes the earlier record, since the handler looks the id up.
   */
  lemma {:induction false} SharedIdFindsEarlier(ids: seq<int>, k: nat)
    requires k < |ids|
    ensures FirstIndex(ids + [ids[k]], ids[k]).Some?
    ensures FirstIndex(ids + [ids[k]], ids[k]).value <= k < |ids|
  {
    if k > 0 && ids[0] != ids[k] {
      assert (ids + [ids[k]])[1..] == ids[1..] + [ids[1..][k - 1]];
      SharedIdFindsEarlier(ids[1..], k - 1);
    }
  }

  /** The whole server-side game state. */
  class GameServer {
    /** The layout; always the fixed Maze() (see the constructor). */
    const maze: seq<seq<int>>
    var players: seq<Player>
    var pellets: seq<Pellet>
    var powerPellets: seq<Pellet>
    /** Whether a game-loop interval is scheduled (gameInterval is not null). */
    var loopRunning: bool

    /** Each player record is listed at most once. */
    ghost predicate Valid()
      reads this
    {
      forall i, j :: 0 <= i < j < |players| ==> players[i] != players[j]
    }

    /** The state when the server module is loaded. */
    constructor ()
      ensures Valid()
      ensures maze == Maze() && players == [] && !loopRunning
      ensures pellets == PelletsOfKind(maze, OpenTile)
      ensures powerPellets == PelletsOfKind(maze, PowerTile)
    {
      maze := Maze();
      players, pellets, powerPellets, loopRunning := [], [], [], false;
      new;
      InitializePellets();
    }

    /** Scans the maze in row-major order, appending a pellet per open cell and a power pellet per power cell. */
    method InitializePellets()
      modifies this`pellets, this`powerPellets
      ensures pellets == old(pellets) + PelletsOfKind(maze, OpenTile)
      ensures powerPellets == old(powerPellets) + PelletsOfKind(maze, PowerTile)
    {
      for y := 0 to |maze|
        invariant pellets == old(pellets) + GridPrefix(maze, y, OpenTile)
        invariant powerPellets == old(powerPellets) + GridPrefix(maze, y, PowerTile)
      {
        for x := 0 to |maze[y]|
          invariant pellets == old(pellets) + GridPrefix(maze, y, OpenTile) + RowPrefix(maze, y, x, OpenTile)
          invariant powerPellets == old(powerPellets) + GridPrefix(maze, y, PowerTile) + RowPrefix(maze, y, x, PowerTile)
        {
          if maze[y][x] == OpenTile {
            pellets := pellets + [Pellet(x, y)];
          } else if maze[y][x] == PowerTile {
            powerPellets := powerPellets + [Pellet(x, y)];
          }
        }
      }
    }

    /** Removes, from the back, every pellet near the player, crediting 10 points for each. */
    method CollectPellets(p: Player)
      modifies this`pellets, p`score
      ensures pellets == Keep(old(pellets), p.x, p.y)
      ensures p.score == old(p.score) + PelletPoints * Eaten(old(pellets), p.x, p.y)
    {
      ghost var s, x, y := pellets, p.x, p.y;
      var i := |pellets|;
      while i > 0
        invariant 0 <= i <= |s|
        invariant pellets == s[..i] + Keep(s[i..], x, y)
        invariant p.score == old(p.score) + PelletPoints * Eaten(s[i..], x, y)
      {
        i := i - 1;
        CollectStep(s, i, x, y, pellets);
        if Near(pellets[i], p.x, p.y) {
          pellets := pellets[..i] + pellets[i + 1..];
          p.score := p.score + PelletPoints;
        }
      }
      assert s[0..] == s;
    }

    /** The same scan over the power pellets: 50 points each, and the player becomes powered up. */
    method CollectPowerPellets(p: Player)
      modifies this`powerPellets, p`score, p`poweredUp
      ensures powerPellets == Keep(old(powerPellets), p.x, p.y)
      ensures p.score == old(p.score) + PowerPelletPoints * Eaten(old(powerPellets), p.x, p.y)
      ensures p.poweredUp == (old(p.poweredUp) || Eaten(old(powerPellets), p.x, p.y) > 0)
    {
      ghost var s, x, y := powerPellets, p.x, p.y;
      var i := |powerPellets|;
      while i > 0
        invariant 0 <= i <= |s|
        invariant powerPellets == s[..i] + Keep(s[i..], x, y)
        invariant p.score == old(p.score) + PowerPelletPoints * Eaten(s[i..], x, y)
        invariant p.poweredUp == (old(p.poweredUp) || Eaten(s[i..], x, y) > 0)
      {
        i := i - 1;
        CollectStep(s, i, x, y, powerPellets);
        if Near(powerPellets[i], p.x, p.y) {
          powerPellets := powerPellets[..i] + powerPellets[i + 1..];
          p.score := p.score + PowerPelletPoints;
          p.poweredUp := true;
        }
      }
      assert s[0..] == s;
    }

    /** The movement step of one player: the source's direction switch, then the wall test. */
    method MovePlayer(p: Player)
      modifies p`x, p`y
      ensures p.View() == Move(maze, old(p.View()))
    {
      var nextX, nextY := p.x, p.y;
      if p.direction == Text("up") {
        nextY := nextY - PlayerSpeed;
      } else if p.direction == Text("down") {
        nextY := nextY + PlayerSpeed;
      } else if p.direction == Text("left") {
        nextX := nextX - PlayerSpeed;
      } else if p.direction == Text("right") {
        nextX := nextX + PlayerSpeed;
      }
      assert (nextX, nextY) == (p.x + Delta(p.direction).0, p.y + Delta(p.direction).1);
      if !IsWall(maze, nextX, nextY) {
        p.x, p.y := nextX, nextY;
      }
    }

    /** One player's share of a tick: the movement step, then both collections. */
    method UpdatePlayer(p: Player)
      modifies p`x, p`y, p`score, p`poweredUp, this`pellets, this`powerPellets
      ensures var r := StepPlayer(maze, old(p.View()), old(pellets), old(powerPellets));
        p.View() == r.player && pellets == r.pellets && powerPellets == r.powerPellets
    {
      MovePlayer(p);
      CollectPellets(p);
      CollectPowerPellets(p);
    }

    /**
     * The first i players hold the views of a partial tick `done`, the rest
     * still hold their views `vs` from before the tick, and the pellet lists
     * are those left by `done`.
     */
    ghost predicate TickedUpTo(i: nat, vs: seq<PlayerView>, done: TickResult)
      reads this, players
    {
      i <= |players| == |vs| && |done.players| == i &&
      pellets == done.pellets && powerPellets == done.powerPellets &&
      (forall j :: 0 <= j < i ==> players[j].View() == done.players[j]) &&
      (forall j :: i <= j < |players| ==> players[j].View() == vs[j])
    }

    /** The loop body of a tick: player i takes its step, extending the tick over vs[..i] to vs[..i + 1]. */
    method UpdateNth(i: nat, ghost vs: seq<PlayerView>, ghost p0: seq<Pellet>, ghost q0: seq<Pellet>)
      requires Valid() && i < |vs| && TickedUpTo(i, vs, Tick(maze, vs[..i], p0, q0))
      modifies players`x, players`y, players`score, players`poweredUp, this`pellets, this`powerPellets
      ensures TickedUpTo(i + 1, vs, Tick(maze, vs[..i + 1], p0, q0))
    {
      ghost var done := Tick(maze, vs[..i], p0, q0);
      ghost var step := StepPlayer(maze, vs[i], done.pellets, done.powerPellets);
      ghost var next := TickResult(done.players + [step.player], step.pellets, step.powerPellets);
      assert next == Tick(maze, vs[..i + 1], p0, q0) by {
        TickExtend(maze, vs, i, p0, q0);
      }
      UpdatePlayer(players[i]);
      forall j | 0 <= j < |players| && j != i ensures players[j].View() == old(players[j].View()) {
        assert players[j] != players[i];
      }
      assert TickedUpTo(i + 1, vs, next);
    }

    /** The simulation part of one game-loop tick: every player in list order. */
    method GameLoop()
      requires Valid()
      modifies players`x, players`y, players`score, players`poweredUp, this`pellets, this`powerPellets
      ensures var r := Tick(maze, old(Views(players)), old(pellets), old(powerPellets));
        pellets == r.pellets && powerPellets == r.powerPellets &&
        forall j :: 0 <= j < |players| ==> players[j].View() == r.players[j]
    {
      ghost var vs, p0, q0 := Views(players), pellets, powerPellets;
      assert vs[..0] == [];
      var i := 0;
      while i < |players|
        invariant i <= |vs|
        invariant TickedUpTo(i, vs, Tick(maze, vs[..i], p0, q0))
      {
        UpdateNth(i, vs, p0, q0);
        i := i + 1;
      }
      assert vs[..i] == vs;
    }

    /** A new connection: append a fresh player at the spawn point and start the loop if none is running. */
    method Connect(id: int) returns (p: Player, started: bool)
      requires Valid()
      modifies this`players, this`loopRunning
      ensures Valid()
      ensures fresh(p) && p.id == id && p.color == "yellow" && p.lives == 3
      ensures p.View() == PlayerView(SpawnX, SpawnY, 0, Null, false)
      ensures players == old(players) + [p]
      ensures started == !old(loopRunning) && loopRunning
    {
      p := new Player(id);
      players := players + [p];
      started := !loopRunning;
      if !loopRunning {
        loopRunning := true;
      }
    }

    /**
     * A closed connection: remove the first player whose id matches, then stop
     * the loop if the server has no clients left (`clientsLeft` is the number
     * of connections still open).
     */
    method Close(id: int, clientsLeft: nat) returns (stopped: bool)
      requires Valid()
      modifies this`players, this`loopRunning
      ensures Valid()
      ensures match FirstIndex(Ids(old(players)), id)
        case None => players == old(players)
        case Some(k) => players == old(players)[..k] + old(players)[k + 1..]
      ensures stopped == (clientsLeft == 0)
      ensures loopRunning == (old(loopRunning) && clientsLeft != 0)
    {
      var index := FirstIndex(Ids(players), id);
      if index.Some? {
        players := players[..index.value] + players[index.value + 1..];
      }
      stopped := clientsLeft == 0;
      if stopped {
        loopRunning := false;
      }
    }
  }
}
