# Game lobby membership

A Dafny model of the lobby routes of a multi-player card game server: how a
game record is created, how users join and leave it as players, how they
spectate it, and when the creator may delete it. The model covers the six
state-changing handlers of `server/routes/games.js` over the game schema of
`server/models/Game.js`.

- `games_model.dfy`, module `GameModel`: the game record (`creator`,
  `players`, `spectators`, `status` in `Waiting | InProgress | Completed`,
  `maxPlayers`, and the `name` the schema requires), the refusal reasons with
  their HTTP codes, the array filter that drops a user (`Without`), the
  document built on create (`NewGame`), the database-wide spectator pull
  (`PullSpectator`), and the record invariant `WellFormed`.
- `game_routes.dfy`, module `GameRoutes`: class `GameStore` holds the games
  collection as a `map` from game id to record plus an id counter. Each route
  is one method. It checks the route's guards in the route's order (the first
  failing guard decides the refusal, and nothing is written), then edits the
  loaded record field by field and writes it back, as the route does with a
  loaded document and `save`.

The acting user is a method parameter: token authentication runs before the
handlers. Records are values in the map, because a handler works on a copy
loaded from the database and writes it back on save.

The methods require only that stored ids were handed out by the counter
(`Valid`). They do not assume the lobby invariant, because admin routes that
pull players straight from the collection can break it. Instead each method
proves `old(Consistent()) ==> Consistent()`. `Consistent` says every record
is `WellFormed` and no user spectates two games. `WellFormed` means:
- there are 1..`maxPlayers` distinct players;
- the creator is one of them;
- a waiting game is never full;
- no spectator is listed twice.

Two consequences are proved. From a consistent store, join never answers
"Game is full": the status check already refuses full games. A game that
fills up becomes `in_progress` and stays so when a player later leaves.

The spectate route first pulls the user from every game's spectators and then
saves the loaded game after pushing the user. The push is saved as an atomic
array update on the stored document, so the game's stored spectators are the
pulled list followed by the user.

## Model

| member | source | states |
|---|---|---|
| GameModel.Without | server/routes/games.js:182 | the filtered list holds exactly the ids of the input other than the user; it is no longer than the input, strictly shorter when the user was present, the input itself when absent, and free of repeats when the input is |
| GameModel.WithoutConcat | server/routes/games.js:182 | filtering distributes over concatenation, so the remaining players keep their relative order |
| GameModel.WithoutRemovesAt | server/routes/games.js:182 | in a list without repeats, removing the user at position i yields the list with exactly that position closed up |
| GameModel.JoinThenLeave | server/routes/games.js:144-182 | leaving after a join restores the players list as it was before the join |
| GameModel.FirstRemaining | server/routes/games.js:190-193 | when one of several distinct players leaves, the first remaining player is the second player if the leaver was first, else the first player |
| GameModel.AppendFresh | server/routes/games.js:136-144 | appending an id not yet listed keeps a list free of repeats, which is why join's membership guard keeps players distinct |
| GameModel.AddSpectatorKeepsSingle | server/routes/games.js:227-234 | after the pull has removed the user everywhere, adding them to one game keeps every user a spectator of at most one game |
| GameModel.NewGame | server/routes/games.js:25-35 | creation succeeds exactly when a name is given and the falsy-defaulted maxPlayers lies in 2..4; the new record is well formed, with the creator as creator and sole player, no spectators, status waiting, and maxPlayers 2 when none (or zero) was given |
| GameModel.HttpStatus | server/routes/games.js:77-87 | a missing game is answered 404 and only a missing game; a delete by someone other than the creator is answered 403 and only that; every other refusal, including create's validation and duplicate-name failures, is answered 400 |
| GameModel.PullSpectator | server/routes/games.js:227-231 | every game keeps its id; the user is in no game's spectators; every other spectator and every other field is kept; well-formedness and single-spectating are preserved |
| GameRoutes.GameStore.Create | server/routes/games.js:23-35 | an invalid record is refused before a duplicate name; otherwise a fresh id maps to the new record with the creator as only player and nothing else changes |
| GameRoutes.GameStore.Join | server/routes/games.js:124-150 | guards in order not found, not waiting, already a player, full, each leaving the store unchanged; on success the user is appended, the length stays within maxPlayers, status becomes in_progress exactly when the length reaches maxPlayers, other fields and games unchanged |
| GameRoutes.GameStore.Leave | server/routes/games.js:169-195 | not found, then not a player, are refused unchanged; otherwise every occurrence of the user is removed, the game is deleted when no one is left, else a leaving creator is replaced by the first remaining player and status, maxPlayers and spectators are kept |
| GameRoutes.GameStore.Delete | server/routes/games.js:73-89 | not found, then not the creator, then more than one player, are refused unchanged; otherwise only that game is removed, and in a consistent store its only player was the creator |
| GameRoutes.GameStore.Spectate | server/routes/games.js:214-235 | not found, then a current player, are refused unchanged; otherwise the user is pulled from all spectator lists and appended to this game's, so they spectate this game and no other |
| GameRoutes.GameStore.LeaveSpectate | server/routes/games.js:256-266 | only a missing game is refused; otherwise every occurrence of the user leaves this game's spectators and nothing else changes |

## Left out

- Token authentication (server/routes/games.js:7-20): the user id is a parameter of every method.
- The read-only routes that list active games and fetch one game (server/routes/games.js:56-121): they are database queries with sorting and population and change nothing.
- Response bodies: the populated JSON returned on success and the logging are not modelled; a method answers `Saved`, `Removed` or `Rejected` with a reason.
- Database failures and the generic 500 answers: the in-memory map never fails.
- Concurrency between requests: handlers run one at a time.
- GameRoutes.GameStore.Create: `maxPlayers` is an integer or absent; non-integer numbers, NaN and strings that the schema would cast are not modelled.
- GameRoutes.GameStore.Join: its bound on the number of players and its rule that a game starts exactly when full are proved only for integer `maxPlayers`. The schema's 2..4 bounds also admit a fraction such as 2.5 (server/models/Game.js:27-32). With 2.5, the full check at server/routes/games.js:140 lets a third player in, and the equality test at line 146 never holds, so the game stays waiting.
- Game ids come from a counter rather than generated object ids, and the `createdAt`/`updatedAt` timestamps and chat `messages` are not modelled.
- The admin routes, user accounts, profiles and the browser client are not part of this model.
- The card-game rules (deck, queens, turns, win conditions) are not part of this model.
