# Pacclone Multi: server tick and client state, modelled in Dafny

Pacclone Multi is a multiplayer Pac-Man clone. A Node.js server (`server.js`)
keeps a fixed 13 x 20 tile maze, a list of connected players and two lists of
pellet coordinates. Sixty times a second it moves every player one step in
that player's direction unless the step would enter a wall. It then removes
every pellet and power pellet whose centre lies within half a tile of the
player and credits 10 or 50 points for each. The browser client (`index.tsx`)
keeps the last two game-state snapshots it received and derives sound cues
from them. Each frame it also turns held keys and gamepad axes into a move,
and it sends a move only when the direction changed.

The project has six modules, one per file:

- `Wrappers` (`wrappers.dfy`) holds `Option`.
- `MazeGrid` (`maze.dfy`) holds the layout, `isWall` and the pellet lists that initialisation produces.
- `Movement` (`movement.dfy`) holds the per-tick rules as pure functions and the lemmas about them:
  - the movement step (`Move`);
  - collection (`Keep`, `Eaten`);
  - one player's step (`StepPlayer`);
  - the whole tick (`Tick`).
- `Server` (`server.dfy`) holds the server's mutable state as classes. These are `Player`, whose records are updated in place, and `GameServer`, which holds the player list, the two pellet lists and the game-loop flag. Each of these in-place methods is proved to compute exactly the pure function it corresponds to:
  - the pellet initialisation loops;
  - the movement switch;
  - the two backward `splice` loops;
  - the per-player loop.

  The connection handlers state their whole new state directly in their contracts.
- `SoundEffects` (`sound.dfy`) holds the cue decision of `handleSoundEffects` as a pure function of the previous snapshot, the current snapshot and audio readiness.
- `Client` (`client.dfy`) holds the client's module-level state as a class, together with `AudioManager` and the input resolution of `processInput`.

Numbers are exact integers:

- Positions are in units of 1/20 tile. `PLAYER_SPEED` (0.05) is 1 unit, a tile is 20 units and the spawn point (1.5, 1.5) is (30, 30).
- `Math.floor` is division by 20. For a positive divisor, Dafny's division rounds down like `Math.floor`.
- `Math.hypot(...) < 0.5` becomes a squared distance below 100 square units, measured to the pellet centre `20 * t + 10`.

JSON values that the server inspects (`player.direction`, `data.type`) are modelled as `Field`:

- `Null` covers both null and a missing property;
- `Text(s)` is a string;
- `NonText` is any other value.

Inputs the code gets from its environment become parameters:

- the clock reading used as a player id;
- `wss.clients.size` when a connection closes;
- whether the browser can construct an `AudioContext`;
- the held keys, as a set of key names;
- the gamepad reading of the frame.

The socket's `readyState` is the `socket` field of `ClientSession`. The environment sets it, and no modelled operation changes it.

## Model

| member | source | states |
|---|---|---|
| MazeGrid.MazeIsRectangular | server.js:14-28 | The layout has 13 rows of 20 cells each, and every cell is a wall (1), an open cell (0) or a power-pellet cell (2). |
| MazeGrid.MazeIsEnclosed | server.js:14-28 | Every border cell of the layout is a wall. |
| MazeGrid.TileOf | server.js:49-50 | The tile of coordinate v is the floor of v/20: 20t <= v < 20t + 20. |
| MazeGrid.IsWall | server.js:48-52 | A wall point has non-negative coordinates, its row exists in the grid, and it lies within that row's columns. |
| MazeGrid.IsWallConstantOnTile | server.js:48-52 | Every point of tile (tx, ty) is a wall point exactly when that row exists, the column exists in it, and the cell holds 1. A missing row or column is not a wall. |
| MazeGrid.WallsInsideMaze | server.js:48-52 | A wall point of the fixed maze lies inside its 400 x 260 unit rectangle, so points off the grid are never walls. |
| MazeGrid.SpawnIsOpen | server.js:115 | The spawn point (1.5, 1.5) is not in a wall. |
| MazeGrid.RowPrefixMembers | server.js:37-43 | The inner loop over row y up to column x yields a pellet exactly for the cells of that prefix that hold the kind. |
| MazeGrid.GridPrefixMembers | server.js:36-44 | The outer loop up to row y yields a pellet exactly for the cells of those rows that hold the kind. |
| MazeGrid.PelletsOfKindMembers | server.js:35-45 | Initialisation yields one pellet for each cell holding the kind (0 for pellets, 2 for power pellets) and no other pellet. |
| MazeGrid.RowPrefixOrdered | server.js:37-43 | Within a row, pellets come left to right. |
| MazeGrid.GridPrefixOrdered | server.js:36-44 | Across rows, pellets come in strictly increasing row-major order. |
| MazeGrid.PelletsOfKind | server.js:35-45 | Each pellet list is in strictly row-major order, so no cell is listed twice. |
| MazeGrid.PelletListsAvoidWalls | server.js:35-45 | For the fixed maze, no pellet of either kind lies on a wall cell, and no cell has both kinds. |
| Movement.Delta | server.js:64-69 | The step offset is non-zero exactly for "up", "down", "left" or "right". At most one component is non-zero, and each component is between -PLAYER_SPEED and PLAYER_SPEED. |
| Movement.Move | server.js:60-74 | The movement step keeps direction, score and poweredUp. It changes at most one coordinate, and the new point is either the old point or the old point plus the offset. An unrecognised or null direction, or a wall at the prospective point, leaves the player exactly as it was. A player outside any wall stays outside. |
| Movement.MoveAdvances | server.js:64-74 | With a named direction and an open target, the player moves exactly PLAYER_SPEED, in Manhattan distance. |
| Movement.Near | server.js:79-80 | A pellet is within reach only of a player inside that pellet's own tile. |
| Movement.Keep | server.js:77-84 | Collection never lengthens a pellet list. |
| Movement.Eaten | server.js:77-84 | The number collected plus the number left equals the old length. Nothing is collected exactly when the list is unchanged. |
| Movement.CollectFrom | server.js:77-84 | Collecting from suffix s[i..] handles s[i] first, then collects from s[i+1..]. |
| Movement.CollectStep | server.js:77-84 | One iteration of the backward scan: element i is still s[i]. Splicing it out when it is near, or keeping it otherwise, extends the collected suffix by one. |
| Movement.KeepMembers | server.js:77-84 | A pellet survives collection exactly when it was in the list and is not strictly within half a tile of the player. |
| Movement.KeepIsSubsequence | server.js:77-84 | The surviving pellets keep their relative order; they are a subsequence of the old list. |
| Movement.KeepIdempotent | server.js:77-84 | A second scan from the same point collects nothing more. |
| Movement.StepPlayer | server.js:60-98 | One player's step, as follows. Direction is unchanged and the position is the movement step's. The score rises by 10 for each pellet removed and 50 for each power pellet removed, so it never falls. The lists only shrink. poweredUp becomes true exactly when a power pellet was taken, or stays true. A player not in a wall stays out of walls. |
| Movement.StepPlayerMembers | server.js:77-98 | After a step, a pellet of either kind remains exactly when it was there and is out of the moved player's reach. |
| Movement.Tick | server.js:58-99 | A tick yields one result per player, and never lengthens either pellet list. |
| Movement.TickExtend | server.js:60 | The tick over the first i + 1 players is the tick over the first i, followed by player i's step on the lists that step leaves. |
| Movement.TickScoresNeverDecrease | server.js:60-98 | A tick never lowers any player's score and never changes any direction. |
| Movement.TickKeepsPlayersOutOfWalls | server.js:71-74 | If no player is in a wall before a tick, none is after it. |
| Movement.TickConservesPoints | server.js:77-98 | The total score rises by 10 for each pellet and 50 for each power pellet that the tick removed, and by nothing else. |
| Movement.TickKeepsOrder | server.js:77-98 | After a tick, both lists are subsequences of what they were. |
| Movement.TickLeavesNothingInReach | server.js:77-98 | After a tick, no remaining pellet or power pellet lies within reach of any player's final position. |
| Movement.StepKeepsOutOfReach | server.js:77-98 | One more player's step keeps the earlier players out of reach of all remaining pellets, and puts the stepping player out of reach too. |
| Server.Player.constructor | server.js:114-115 | A new record has the given id, colour "yellow", 3 lives, position (30, 30), score 0, a null direction and poweredUp false. |
| Server.Player.ReceiveMessage | server.js:118-123 | A message whose type is "input" replaces the direction with the message's direction. Any other message leaves it unchanged. |
| Server.FirstIndex | server.js:132 | findIndex returns the first matching position, and there is none exactly when the id is absent. |
| Server.FirstIndexOfDistinct | server.js:132 | With distinct ids, looking up entry i's id finds i. |
| Server.FirstIndexOfAppended | server.js:114-116 | A player appended with an id not in use is the one its own close handler finds. |
| Server.SharedIdFindsEarlier | server.js:114 | When two connections read the same clock value, the later one's close handler finds the earlier record. |
| Server.GameServer.constructor | server.js:29-46 | On start there are no players and no loop, and each pellet list is exactly what initialisation yields for the fixed maze. |
| Server.GameServer.InitializePellets | server.js:35-45 | The nested loops append exactly PelletsOfKind(maze, 0) to the pellet list and PelletsOfKind(maze, 2) to the power-pellet list. |
| Server.GameServer.CollectPellets | server.js:77-84 | The backward splice loop leaves Keep(old list) at the player's point and adds 10 times Eaten(old list) to the score. |
| Server.GameServer.CollectPowerPellets | server.js:86-98 | The same backward loop over power pellets adds 50 for each one taken, and sets poweredUp exactly when one was taken (or it was already set). |
| Server.GameServer.MovePlayer | server.js:61-74 | The direction switch followed by the wall test leaves the player at Move(maze, old player). |
| Server.GameServer.UpdatePlayer | server.js:60-98 | Moving and then both collections equal StepPlayer on the old player and the old lists. |
| Server.GameServer.UpdateNth | server.js:60-98 | The i-th iteration of the forEach extends the tick over the first i players to the first i + 1, and leaves every other record unchanged. |
| Server.GameServer.GameLoop | server.js:58-99 | After the loop, the pellet lists and every player's record equal Tick over the players' views before the loop. |
| Server.GameServer.Connect | server.js:114-128 | Connect appends a fresh player at spawn with score 0, lives 3 and a null direction. It starts the loop exactly when none was running, and the loop is running afterwards. |
| Server.GameServer.Close | server.js:130-142 | Close removes only the first player whose id matches, if any, and the rest keep their order. The loop stops exactly when no clients remain, and is otherwise unchanged. |
| SoundEffects.Find | index.tsx:216 | find returns the first entry with the id, and finds nothing exactly when no entry has it. |
| SoundEffects.FindIsFirst | index.tsx:216 | Whichever entry is the first with the id, find returns that entry. |
| SoundEffects.FindDistinct | index.tsx:216 | With distinct ids, find on an entry's id returns that entry. |
| SoundEffects.StartsDashing | index.tsx:216-217 | A player starts dashing exactly when it is dashing now and the first previous entry with its id, if any, was not dashing. |
| SoundEffects.AnyStartsDashing | index.tsx:214-220 | The dash flag is raised exactly when some current player is dashing, and its previous entry is absent or was not dashing. |
| SoundEffects.LostLife | index.tsx:232-233 | A player lost a life exactly when some previous entry with its id is the first such entry and had more lives. |
| SoundEffects.Deaths | index.tsx:231-236 | There is at most one death cue per current player, and only death cues. |
| SoundEffects.DeathsAppend | index.tsx:231-236 | Death cues are decided player by player: the cues for a concatenation are the concatenated cues. |
| SoundEffects.DeathsSingle | index.tsx:232-235 | A single player yields one death cue exactly when it is in the previous snapshot with more lives. |
| SoundEffects.DeathsMembers | index.tsx:231-236 | A death cue for an id occurs exactly when some current player with that id has fewer lives than its previous entry. |
| SoundEffects.DeathsMembersAll | index.tsx:231-236 | The previous property, for every id at once. |
| SoundEffects.NamedCues | index.tsx:221-228 | A dash cue and a pellet cue put before death cues each occur at most once, and exactly when their condition holds. |
| SoundEffects.DeathsAfterNamedCues | index.tsx:221-236 | With the dash and pellet cues in front, the death cues of the list are exactly those of Deaths, in order, at the end. |
| SoundEffects.NewcomersNeverDie | index.tsx:231-236 | A player absent from the previous snapshot never triggers a death cue. |
| SoundEffects.NoLostLivesNoDeaths | index.tsx:231-236 | When no current player lost a life, there are no death cues. |
| SoundEffects.CuesBetween | index.tsx:214-236 | For two existing snapshots: at most one dash cue and one pellet cue. The dash cue fires iff some player started dashing, and the pellet cue iff pelletsRemaining strictly fell. A death cue for an id occurs iff a current player with that id lost a life, and the death cues are exactly Deaths, in order, at the end. |
| SoundEffects.SoundCues | index.tsx:207-237 | The rules are: (1) no cue when either snapshot is null or audio is not ready; (2) at most one dash cue and one pellet cue; (3) the dash cue fires iff some player started dashing; (4) the pellet cue fires iff pelletsRemaining strictly fell; (5) a death cue for an id fires iff a current player with that id lost a life; (6) the death cues come last, exactly as Deaths lists them. |
| SoundEffects.SameSnapshotIsSilent | index.tsx:207-237 | The same snapshot twice, with distinct ids, plays nothing. |
| Client.Transition | index.tsx:164-197 | Only connected changes clientId. Only connected, lobbyStateUpdate and returnToLobby change lobbyState. Only gameStarted, gameStateUpdate and returnToLobby change gameState. Only gameStarted and gameStateUpdate change lastGameState. |
| Client.CuesFor | index.tsx:185-189 | No cue is played unless the message is a gameStateUpdate, audio is ready and a snapshot was already held. |
| Client.UpdateShiftsSnapshots | index.tsx:185-189 | gameStateUpdate moves gameState into lastGameState, stores the payload as gameState, and changes nothing else. |
| Client.StartForgetsPrevious | index.tsx:179-189 | gameStarted sets lastGameState to null and plays nothing. The next update compares against the start snapshot. |
| Client.ReturnToLobbySilencesNextUpdate | index.tsx:190-196 | returnToLobby sets gameState to null and lobbyState to the payload, and keeps clientId. The first update afterwards plays no cue. |
| Client.ConnectedAndUnlisted | index.tsx:164-197 | connected sets clientId and lobbyState and nothing else. gameInProgress and unlisted events change no tracked state. |
| Client.HeldSnapshotsWereDelivered | index.tsx:164-197 | After any sequence of messages, each held snapshot was held before or delivered by one of them. |
| Client.ClientIdComesFromConnected | index.tsx:166-168 | After any sequence, clientId is the initial one or an id carried by a connected message. |
| Client.AfterInit | index.tsx:39-50 | Once initialised, init changes nothing. Otherwise it initialises exactly when an audio context can be created. |
| Client.Ready | index.tsx:52-54 | While a context exists whenever init has succeeded, ready means init has succeeded. |
| Client.InitIdempotent | index.tsx:39-54 | After a successful init, a second one changes nothing and the manager is ready. A failed init leaves it not ready. |
| Client.AudioManager.constructor | index.tsx:28-37 | A new manager is neither initialised nor has a context, so its invariant holds. |
| Client.AudioManager.Init | index.tsx:39-50 | The flags after init are AfterInit of the flags before. Init keeps the invariant that a context exists whenever init has succeeded. |
| Client.AudioManager.IsReady | index.tsx:52-54 | Under the manager's invariant, isReady is the same as isInitialized. |
| Client.KeyboardDirection | index.tsx:376-379 | The keyboard sets at most one axis, each component between -1 and 1. |
| Client.KeyboardPriority | index.tsx:376-379 | Up beats down, down beats left, and left beats right. The result is (0, 0) exactly when none is held. |
| Client.AxisOverride | index.tsx:386-389 | An axis result is -1, 1 or the keyboard's component. It differs from the keyboard's only when the axis exists and is pushed beyond 0.5 either way, and then it is 1 exactly when the push is positive. |
| Client.Resolve | index.tsx:373-389 | The resolved components are in {-1, 0, 1}. Without a gamepad the result is the keyboard's. |
| Client.GamepadOverridesAxes | index.tsx:386-389 | An axis beyond 0.5 either way decides that component; otherwise the keyboard's component stands. |
| Client.DiagonalIsPossible | index.tsx:386-389 | The stick pushed right and down resolves to the diagonal (1, 1). |
| Client.ResolveDirection | index.tsx:373-389 | The step-by-step assignments to dx and dy compute Resolve. |
| Client.FrameMessages | index.tsx:391-404 | A frame sends at most three messages. |
| Client.NumDashes | index.tsx:391-399 | At most two dash sources are held. |
| Client.DashSentEveryFrame | index.tsx:391-399 | A frame sends one dash message per held dash source (button 0, Space or Shift), whether or not the direction changed. |
| Client.MoveSentOnlyOnChange | index.tsx:401-404 | A move message is sent exactly when the resolved direction differs from lastMove, and it carries that direction. When unchanged, only the dashes are sent. |
| Client.ClientSession.constructor | index.tsx:15-24 | The client starts with every tracked value null, lastMove (0, 0), no socket, and nothing sent. |
| Client.ClientSession.HandleServerMessage | index.tsx:164-197 | The tracked state after a message is Transition of the state before. The cues played are those of SoundCues for a gameStateUpdate, and none otherwise. On gameStarted the first game-loop frame runs processInput: lastMove becomes the resolved direction and the frame's messages go out on an open socket. Any other message sends nothing and keeps lastMove. |
| Client.ClientSession.SendMessage | index.tsx:200-204 | A message is appended to what was sent exactly when the socket is open. |
| Client.ClientSession.ProcessInput | index.tsx:372-405 | lastMove becomes the resolved direction. On an open socket the frame's messages go out in source order: button dash, key dash, then a move only if changed. Otherwise nothing goes out. |

## Left out

- Power-up expiry: the 10-second `setTimeout` that clears `poweredUp` (server.js:94-96) runs outside the tick. The model only sets `poweredUp`.
- Transport and serving: Express static files, the HTTP and WebSocket servers, `JSON.parse`, the welcome message and `server.listen` (server.js:2-11, 111-112, 145-148) are all I/O.
- Broadcast: the loop that sends the game state to every open client (server.js:101-107) is I/O.
- Scheduling: `setInterval` is represented only by the `loopRunning` flag. One call of `GameLoop` is one tick.
- Float drift: positions are exact multiples of 0.05 tile in integer units. Adding 0.05 repeatedly in floating point can drift from those multiples, and the model does not follow that drift.
- Ghosts: the single ghost (server.js:30) is never updated, so there is nothing to model.
- Server.GameServer.Connect: the clock reading `Date.now()` is the `id` parameter. The record is what the connection handler holds, so a later `ReceiveMessage` on it still takes effect after the record has been removed.
- Server.GameServer.Close: `wss.clients.size` is the `clientsLeft` parameter.
- Lives, dash, lobby slots and spectating: the server never changes `lives`, and it has none of the other features. Only the client reads them.
- Message agreement: the client sends `{event, payload}` (index.tsx:202) but the server reads `type` and `direction` (server.js:120-121). This mismatch is not modelled. Each side is modelled on its own terms.
- Client.ClientSession.HandleServerMessage: payloads arrive already decoded and typed. A snapshot keeps only the fields the cue decision reads (player id, isDashing, lives, pelletsRemaining). The lobby payload keeps its `slots` and `message` fields, which only the lobby view reads. The UI calls (`updateLobbyUI`, `showMessage`, the view switches and `cancelAnimationFrame`) are left out. On gameStarted, the first frame of `gameLoop` (index.tsx:241-247) is modelled as one `ProcessInput` call on the keys and gamepad given as parameters. `renderGame` and the `requestAnimationFrame` rescheduling are left out, so each later frame is one more `ProcessInput` call by the caller. The cues returned stand for the `playSound` calls.
- Socket lifecycle: `connect`, `onopen`, `onclose` and `onerror` (index.tsx:136-162) only set up the socket and show messages. They are not modelled, and `socket` is set by the environment.
- Audio: synthesis (index.tsx:56-78) and playback are left out. `playSound`'s check that the named buffer exists is taken to hold whenever the manager is ready, because the buffers are created right after a successful init.
- Input sources: the keyboard and gamepad event listeners, the touch controls (index.tsx:323-370) and the other `sendMessage` callers (join, game speed, spectate) are not modelled.
- Gamepad reading: button 0 is taken to exist (`gp.buttons[0]`). A missing axis counts as not pushed, as `undefined < -0.5` is false in JavaScript.
- Rendering and DOM: canvas drawing, the UI updates and the flashing driven by `Date.now()` (index.tsx:249-320, 408-487) are not modelled.
