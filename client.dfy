/**
 * The browser client's tracked state: the server-message state machine, the
 * audio manager's one-shot initialisation, the open-socket guard on sending,
 * and the per-frame resolution of keyboard and gamepad input to a direction.
 */
module Client {
  import opened Wrappers
  import opened SoundEffects

  /** The lobby payload: one slot per seat (a client id or empty) and a status message. */
  datatype LobbyState = LobbyState(slots: seq<Option<string>>, message: string)

  /** The server events the client handles, each with its decoded payload. */
  datatype ServerMessage =
    | Connected(clientId: string, lobby: LobbyState)
    | LobbyStateUpdate(lobby: LobbyState)
    | GameInProgress
    | GameStarted(snapshot: Snapshot)
    | GameStateUpdate(snapshot: Snapshot)
    | ReturnToLobby(lobby: LobbyState)
    | Unlisted(event: string)

  /** The module-level variables the message handler assigns (None is null). */
  datatype ClientState = ClientState(
    clientId: Option<string>,
    lobbyState: Option<LobbyState>,
    gameState: Option<Snapshot>,
    lastGameState: Option<Snapshot>)

  const InitialState := ClientState(None, None, None, None)

  /**
   * The effect of one server message on the tracked state. Only connected
   * sets the client id; only connected, lobbyStateUpdate and returnToLobby set
   * the lobby; only gameStarted, gameStateUpdate and returnToLobby set the
   * snapshot; only the first two of those set the previous snapshot.
   */
  function Transition(s: ClientState, m: ServerMessage): (r: ClientState)
    ensures !m.Connected? ==> r.clientId == s.clientId
    ensures !(m.Connected? || m.LobbyStateUpdate? || m.ReturnToLobby?) ==> r.lobbyState == s.lobbyState
    ensures !(m.GameStarted? || m.GameStateUpdate? || m.ReturnToLobby?) ==> r.gameState == s.gameState
    ensures !(m.GameStarted? || m.GameStateUpdate?) ==> r.lastGameState == s.lastGameState
  {
    match m
    case Connected(id, lobby) => s.(clientId := Some(id), lobbyState := Some(lobby))
    case LobbyStateUpdate(lobby) => s.(lobbyState := Some(lobby))
    case GameInProgress => s
    case GameStarted(snap) => s.(lastGameState := None, gameState := Some(snap))
    case GameStateUpdate(snap) => s.(lastGameState := s.gameState, gameState := Some(snap))
    case ReturnToLobby(lobby) => s.(lobbyState := Some(lobby), gameState := None)
    case Unlisted(_) => s
  }

  /** The cues played while handling a message: only a game-state update plays any. */
  function CuesFor(s: ClientState, m: ServerMessage, audioReady: bool): (r: seq<Cue>)
    ensures !m.GameStateUpdate? || !audioReady || s.gameState.None? ==> r == []
  {
    if m.GameStateUpdate? && audioReady && s.gameState.Some? then
      var t := Transition(s, m);
      SoundCues(t.lastGameState, t.gameState, audioReady)
    else []
  }

  /** A game-state update shifts the held snapshot into lastGameState and holds the payload. */
  lemma UpdateShiftsSnapshots(s: ClientState, snap: Snapshot)
    ensures Transition(s, GameStateUpdate(snap)).lastGameState == s.gameState
    ensures Transition(s, GameStateUpdate(snap)).gameState == Some(snap)
    ensures Transition(s, GameStateUpdate(snap)).(lastGameState := s.lastGameState, gameState := s.gameState) == s
  { }

  /** The start of a game forgets any previous snapshot, so it plays no cue and the next update compares against the start. */
  lemma StartForgetsPrevious(s: ClientState, start: Snapshot, next: Snapshot, audioReady: bool)
    ensures Transition(s, GameStarted(start)).lastGameState == None
    ensures CuesFor(s, GameStarted(start), audioReady) == []
    ensures CuesFor(Transition(s, GameStarted(start)), GameStateUpdate(next), audioReady)
            == SoundCues(Some(start), Some(next), audioReady)
  {
    var t := Transition(s, GameStarted(start));
    assert t.gameState == Some(start);
    assert Transition(t, GameStateUpdate(next)) == t.(lastGameState := Some(start), gameState := Some(next));
  }

  /** Returning to the lobby drops the snapshot, so the first update afterwards plays nothing. */
  lemma ReturnToLobbySilencesNextUpdate(s: ClientState, lobby: LobbyState, snap: Snapshot, audioReady: bool)
    ensures Transition(s, ReturnToLobby(lobby)).gameState == None
    ensures Transition(s, ReturnToLobby(lobby)).lobbyState == Some(lobby)
    ensures Transition(s, ReturnToLobby(lobby)).clientId == s.clientId
    ensures CuesFor(Transition(s, ReturnToLobby(lobby)), GameStateUpdate(snap), audioReady) == []
  { }

  /** Connecting sets the id and the lobby and nothing else; unlisted events and gameInProgress change nothing. */
  lemma ConnectedAndUnlisted(s: ClientState, id: string, lobby: LobbyState, event: string)
    ensures Transition(s, Connected(id, lobby)) == s.(clientId := Some(id), lobbyState := Some(lobby))
    ensures Transition(s, Unlisted(event)) == s
    ensures Transition(s, GameInProgress) == s
  { }

  /** The state after handling a sequence of messages in order. */
  function Run(s: ClientState, ms: seq<ServerMessage>): (r: ClientState)
    decreases |ms|
  {
    if ms == [] then s else Run(Transition(s, ms[0]), ms[1..])
  }

  /** m delivers the given snapshot (as gameStarted or gameStateUpdate). */
  predicate Delivers(m: ServerMessage, snap: Snapshot) {
    (m.GameStarted? || m.GameStateUpdate?) && m.snapshot == snap
  }

  /**
   * Whatever snapshots the client holds after any message sequence were
   * either held at the start or delivered by one of those messages.
   */
  lemma {:induction false} HeldSnapshotsWereDelivered(s: ClientState, ms: seq<ServerMessage>)
    ensures var r := Run(s, ms);
      (r.gameState.Some? ==>
         r.gameState == s.gameState || exists i :: 0 <= i < |ms| && Delivers(ms[i], r.gameState.value))
      && (r.lastGameState.Some? ==>
         r.lastGameState in {s.gameState, s.lastGameState} ||
         exists i :: 0 <= i < |ms| && Delivers(ms[i], r.lastGameState.value))
    decreases |ms|
  {
    if ms != [] {
      var t := Transition(s, ms[0]);
      HeldSnapshotsWereDelivered(t, ms[1..]);
      var r := Run(s, ms);
      assert r == Run(t, ms[1..]);
      forall i | 0 <= i < |ms[1..]| ensures ms[1..][i] == ms[i + 1] { }
      if r.gameState.Some? && r.gameState != t.gameState {
        var i :| 0 <= i < |ms[1..]| && Delivers(ms[1..][i], r.gameState.value);
        assert Delivers(ms[i + 1], r.gameState.value);
      }
      if r.lastGameState.Some? && r.lastGameState !in {t.gameState, t.lastGameState} {
        var i :| 0 <= i < |ms[1..]| && Delivers(ms[1..][i], r.lastGameState.value);
        assert Delivers(ms[i + 1], r.lastGameState.value);
      }
    }
  }

  /** The clientId only ever changes to an id carried by a connected message. */
  lemma {:induction false} ClientIdComesFromConnected(s: ClientState, ms: seq<ServerMessage>)
    ensures var r := Run(s, ms);
      r.clientId == s.clientId ||
      exists i :: 0 <= i < |ms| && ms[i].Connected? && r.clientId == Some(ms[i].clientId)
    decreases |ms|
  {
    if ms != [] {
      var t := Transition(s, ms[0]);
      ClientIdComesFromConnected(t, ms[1..]);
      var r := Run(s, ms);
      assert r == Run(t, ms[1..]);
      if r.clientId != t.clientId {
        var i :| 0 <= i < |ms[1..]| && ms[1..][i].Connected? && r.clientId == Some(ms[1..][i].clientId);
        assert ms[i + 1] == ms[1..][i];
      }
    }
  }

  // ---------------------------------------------------------------- audio

  /** The audio manager's flags: init has succeeded, and an audio context exists. */
  datatype AudioStatus = AudioStatus(initialized: bool, hasContext: bool)

  /** init(): nothing once initialised; otherwise a context is created if the platform offers one. */
  function AfterInit(s: AudioStatus, contextAvailable: bool): (r: AudioStatus)
    ensures s.initialized ==> r == s
    ensures r.initialized <==> s.initialized || contextAvailable
    ensures !s.initialized && !contextAvailable ==> r == s
  {
    if s.initialized then s
    else if contextAvailable then AudioStatus(true, true)
    else s
  }

  /** Ready means initialised with a context; while a context exists whenever init succeeded, that is init having succeeded. */
  predicate Ready(s: AudioStatus)
    ensures (s.initialized ==> s.hasContext) ==> (Ready(s) <==> s.initialized)
  {
    s.initialized && s.hasContext
  }

  /** A second init changes nothing after a successful one, and a successful init leaves the manager ready. */
  lemma InitIdempotent(s: AudioStatus, first: bool, second: bool)
    requires s.initialized ==> s.hasContext
    ensures AfterInit(s, first).initialized ==> AfterInit(AfterInit(s, first), second) == AfterInit(s, first)
    ensures AfterInit(s, first).initialized ==> Ready(AfterInit(s, first))
    ensures !s.initialized && !first ==> !Ready(AfterInit(s, first))
  { }

  class AudioManager {
    var isInitialized: bool
    var hasContext: bool

    function Status(): AudioStatus
      reads this
    {
      AudioStatus(isInitialized, hasContext)
    }

    /** A context exists whenever init has succeeded. */
    predicate Valid()
      reads this
    {
      isInitialized ==> hasContext
    }

    constructor()
      ensures Valid()
      ensures Status() == AudioStatus(false, false)
    {
      isInitialized := false;
      hasContext := false;
    }

    /** contextAvailable says whether constructing the AudioContext succeeds rather than throws. */
    method Init(contextAvailable: bool)
      requires Valid()
      modifies this
      ensures Valid()
      ensures Status() == AfterInit(old(Status()), contextAvailable)
    {
      if isInitialized {
        return;
      }
      if contextAvailable {
        hasContext := true;
        isInitialized := true;
      }
    }

    /** isReady(): under the manager's invariant, the same as isInitialized. */
    predicate IsReady()
      reads this
      ensures Valid() ==> (IsReady() <==> isInitialized)
    {
      Ready(Status())
    }
  }

  // ---------------------------------------------------------------- input

  /** The readyState values of a WebSocket, and no socket at all. */
  datatype SocketState = NoSocket | Connecting | Open | Closing | Closed

  datatype Direction = Direction(dx: int, dy: int)

  datatype InputAction = Dash | Move(direction: Direction)

  /** A playerInput message as the client sends it. */
  datatype ClientMessage = PlayerInput(action: InputAction)

  /** A connected gamepad read this frame: its axes and whether button 0 is pressed. */
  datatype GamepadReading = GamepadReading(axes: seq<real>, dashPressed: bool)

  predicate UpHeld(held: set<string>) { "w" in held || "ArrowUp" in held }
  predicate DownHeld(held: set<string>) { "s" in held || "ArrowDown" in held }
  predicate LeftHeld(held: set<string>) { "a" in held || "ArrowLeft" in held }
  predicate RightHeld(held: set<string>) { "d" in held || "ArrowRight" in held }
  predicate DashHeld(held: set<string>) { " " in held || "Shift" in held }

  /** The keyboard's direction: one axis at most, up before down before left before right. */
  function KeyboardDirection(held: set<string>): (r: Direction)
    ensures r.dx == 0 || r.dy == 0
    ensures -1 <= r.dx <= 1 && -1 <= r.dy <= 1
  {
    if UpHeld(held) then Direction(0, -1)
    else if DownHeld(held) then Direction(0, 1)
    else if LeftHeld(held) then Direction(-1, 0)
    else if RightHeld(held) then Direction(1, 0)
    else Direction(0, 0)
  }

  /** A stick axis beyond 0.5 either way decides that component; otherwise (or if absent) the keyboard's stands. */
  function AxisOverride(axes: seq<real>, k: nat, fallback: int): (r: int)
    ensures r == fallback || r == -1 || r == 1
    ensures r != fallback ==> k < |axes| && (axes[k] < -0.5 || axes[k] > 0.5)
    ensures k < |axes| && (axes[k] < -0.5 || axes[k] > 0.5) ==> (r == 1 <==> axes[k] > 0.5)
  {
    if k < |axes| && axes[k] < -0.5 then -1
    else if k < |axes| && axes[k] > 0.5 then 1
    else fallback
  }

  /** The direction resolved from the held keys and the gamepad, if one is read this frame. */
  function Resolve(held: set<string>, pad: Option<GamepadReading>): (r: Direction)
    ensures -1 <= r.dx <= 1 && -1 <= r.dy <= 1
    ensures pad.None? ==> r == KeyboardDirection(held)
  {
    var kb := KeyboardDirection(held);
    match pad
    case None => kb
    case Some(g) => Direction(AxisOverride(g.axes, 0, kb.dx), AxisOverride(g.axes, 1, kb.dy))
  }

  /** Keyboard priority: up wins over everything, down over left/right, left over right. */
  lemma KeyboardPriority(held: set<string>)
    ensures UpHeld(held) ==> KeyboardDirection(held) == Direction(0, -1)
    ensures !UpHeld(held) && DownHeld(held) ==> KeyboardDirection(held) == Direction(0, 1)
    ensures !UpHeld(held) && !DownHeld(held) && LeftHeld(held) ==> KeyboardDirection(held) == Direction(-1, 0)
    ensures !UpHeld(held) && !DownHeld(held) && !LeftHeld(held) && RightHeld(held) ==>
              KeyboardDirection(held) == Direction(1, 0)
    ensures KeyboardDirection(held) == Direction(0, 0) <==>
              !UpHeld(held) && !DownHeld(held) && !LeftHeld(held) && !RightHeld(held)
  { }

  /** The gamepad overrides each component independently, so a diagonal is reachable. */
  lemma GamepadOverridesAxes(held: set<string>, g: GamepadReading)
    requires |g.axes| >= 2
    ensures g.axes[0] > 0.5 ==> Resolve(held, Some(g)).dx == 1
    ensures g.axes[0] < -0.5 ==> Resolve(held, Some(g)).dx == -1
    ensures -0.5 <= g.axes[0] <= 0.5 ==> Resolve(held, Some(g)).dx == KeyboardDirection(held).dx
    ensures g.axes[1] > 0.5 ==> Resolve(held, Some(g)).dy == 1
    ensures g.axes[1] < -0.5 ==> Resolve(held, Some(g)).dy == -1
    ensures -0.5 <= g.axes[1] <= 0.5 ==> Resolve(held, Some(g)).dy == KeyboardDirection(held).dy
  { }

  /** Example of a diagonal: the stick pushed right and down with no key held. */
  lemma DiagonalIsPossible()
    ensures Resolve({}, Some(GamepadReading([0.9, 0.9], false))) == Direction(1, 1)
  { }

  /** The messages one input frame sends on an open socket, in order: pad dash, key dash, then a changed move. */
  function FrameMessages(held: set<string>, pad: Option<GamepadReading>, lastMove: Direction): (r: seq<ClientMessage>)
    ensures |r| <= 3
  {
    (if pad.Some? && pad.value.dashPressed then [PlayerInput(Dash)] else [])
    + (if DashHeld(held) then [PlayerInput(Dash)] else [])
    + (if Resolve(held, pad) != lastMove then [PlayerInput(Move(Resolve(held, pad)))] else [])
  }

  /** A move is sent exactly when the resolved direction differs from the last one, and only that direction. */
  lemma MoveSentOnlyOnChange(held: set<string>, pad: Option<GamepadReading>, lastMove: Direction, d: Direction)
    ensures PlayerInput(Move(d)) in FrameMessages(held, pad, lastMove) <==>
              Resolve(held, pad) != lastMove && d == Resolve(held, pad)
    ensures FrameMessages(held, pad, Resolve(held, pad)) == FrameMessages(held, pad, lastMove)[..NumDashes(held, pad)]
  { }

  /** How many dash messages a frame sends: one per held dash source. */
  function NumDashes(held: set<string>, pad: Option<GamepadReading>): (n: nat)
    ensures n <= 2
  {
    (if pad.Some? && pad.value.dashPressed then 1 else 0) + (if DashHeld(held) then 1 else 0)
  }

  /** Every frame with a dash source held sends as many dash messages as sources are held. */
  lemma DashSentEveryFrame(held: set<string>, pad: Option<GamepadReading>, lastMove: Direction)
    ensures multiset(FrameMessages(held, pad, lastMove))[PlayerInput(Dash)] == NumDashes(held, pad)
  { }

  /** The client's module-level mutable state. */
  class ClientSession {
    var clientId: Option<string>
    var lobbyState: Option<LobbyState>
    var gameState: Option<Snapshot>
    var lastGameState: Option<Snapshot>
    var lastMove: Direction
    var socket: SocketState
    /** Everything sent through the socket, oldest first. */
    var sent: seq<ClientMessage>

    function State(): ClientState
      reads this
    {
      ClientState(clientId, lobbyState, gameState, lastGameState)
    }

    constructor()
      ensures State() == InitialState
      ensures lastMove == Direction(0, 0) && socket == NoSocket && sent == []
    {
      clientId, lobbyState, gameState, lastGameState := None, None, None, None;
      lastMove := Direction(0, 0);
      socket := NoSocket;
      sent := [];
    }

    /**
     * handleServerMessage: updates the tracked state and returns the cues
     * handleSoundEffects plays. On gameStarted the first frame of the game
     * loop runs processInput, on the keys held and the gamepad read then.
     */
    method HandleServerMessage(m: ServerMessage, audio: AudioManager, held: set<string>, pad: Option<GamepadReading>)
      returns (cues: seq<Cue>)
      modifies this`clientId, this`lobbyState, this`gameState, this`lastGameState, this`lastMove, this`sent
      ensures State() == Transition(old(State()), m)
      ensures cues == CuesFor(old(State()), m, audio.IsReady())
      ensures m.GameStarted? ==>
                lastMove == Resolve(held, pad) &&
                sent == old(sent) + (if socket == Open then FrameMessages(held, pad, old(lastMove)) else [])
      ensures !m.GameStarted? ==> lastMove == old(lastMove) && sent == old(sent)
    {
      cues := [];
      match m
      case Connected(id, lobby) =>
        clientId := Some(id);
        lobbyState := Some(lobby);
      case LobbyStateUpdate(lobby) =>
        lobbyState := Some(lobby);
      case GameInProgress =>
      case GameStarted(snap) =>
        lastGameState := None;
        gameState := Some(snap);
        ProcessInput(held, pad);
      case GameStateUpdate(snap) =>
        lastGameState := gameState;
        gameState := Some(snap);
        cues := SoundCues(lastGameState, gameState, audio.IsReady());
      case ReturnToLobby(lobby) =>
        lobbyState := Some(lobby);
        gameState := None;
      case Unlisted(_) =>
    }

    /** sendMessage: a message goes out only while the socket is open. */
    method SendMessage(msg: ClientMessage)
      modifies this`sent
      ensures sent == old(sent) + (if socket == Open then [msg] else [])
    {
      if socket == Open {
        sent := sent + [msg];
      }
    }

    /** processInput: resolves this frame's direction, sends dashes and a changed move. */
    method ProcessInput(held: set<string>, pad: Option<GamepadReading>)
      modifies this`sent, this`lastMove
      ensures lastMove == Resolve(held, pad)
      ensures sent == old(sent) + (if socket == Open then FrameMessages(held, pad, old(lastMove)) else [])
    {
      var d := ResolveDirection(held, pad);
      ghost var sent0, last0 := sent, lastMove;
      ghost var padDash: seq<ClientMessage> := [];
      if pad.Some? && pad.value.dashPressed {
        SendMessage(PlayerInput(Dash));
        padDash := [PlayerInput(Dash)];
      }
      ghost var keyDash: seq<ClientMessage> := [];
      if DashHeld(held) {
        SendMessage(PlayerInput(Dash));
        keyDash := [PlayerInput(Dash)];
      }
      assert sent == sent0 + (if socket == Open then padDash + keyDash else []);
      ghost var move: seq<ClientMessage> := [];
      if d.dx != lastMove.dx || d.dy != lastMove.dy {
        SendMessage(PlayerInput(Move(d)));
        move := [PlayerInput(Move(d))];
        lastMove := d;
      }
      assert sent == sent0 + (if socket == Open then padDash + keyDash + move else []);
      assert padDash + keyDash + move == FrameMessages(held, pad, last0);
    }
  }

  /**
   * The direction part of processInput, step by step: the keyboard sets at
   * most one component, then a gamepad axis beyond 0.5 overwrites dy and dx.
   */
  method ResolveDirection(held: set<string>, pad: Option<GamepadReading>) returns (d: Direction)
    ensures d == Resolve(held, pad)
  {
    var dx, dy := 0, 0;
    if UpHeld(held) {
      dy := -1;
    } else if DownHeld(held) {
      dy := 1;
    } else if LeftHeld(held) {
      dx := -1;
    } else if RightHeld(held) {
      dx := 1;
    }
    if pad.Some? {
      var axes := pad.value.axes;
      if 1 < |axes| && axes[1] < -0.5 {
        dy := -1;
      } else if 1 < |axes| && axes[1] > 0.5 {
        dy := 1;
      }
      if 0 < |axes| && axes[0] < -0.5 {
        dx := -1;
      } else if 0 < |axes| && axes[0] > 0.5 {
        dx := 1;
      }
    }
    d := Direction(dx, dy);
  }
}
