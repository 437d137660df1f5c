/**
 * The game record of the lobby (server/models/Game.js) and the pure pieces of
 * the lobby route handlers: the array filter that removes a user, building a
 * new record, and the database-wide removal of a spectator.
 */
module GameModel {

  type UserId = nat
  type GameId = nat

  datatype Option<T> = None | Some(value: T)

  /** The three values of the `status` enum; the schema default is Waiting. */
  datatype Status = Waiting | InProgress | Completed

  /** One game document. `name` is the empty string when the request gave none. */
  datatype Game = Game(
    name: string,
    creator: UserId,
    players: seq<UserId>,
    spectators: seq<UserId>,
    status: Status,
    maxPlayers: int)

  /** Why a lobby request is refused; every refusal leaves the store unchanged. */
  datatype Rejection =
    | GameNotFound          // findById found nothing
    | InvalidGame           // schema validation failed on save
    | DuplicateName         // unique index on `name` refused the insert
    | NotAcceptingPlayers   // join on a game that is not waiting
    | AlreadyInGame         // join by a current player
    | GameFull              // join when players already reach maxPlayers
    | NotInGame             // leave by a user who is not a player
    | NotCreator            // delete by anyone but the creator
    | HasActivePlayers      // delete while more than one player is in
    | PlayerCannotSpectate  // spectate by a current player

  datatype Result<T> = Ok(value: T) | Err(error: Rejection)

  /**
   * The HTTP status each refusal is answered with: only a missing game is
   * "not found", only a non-creator's delete is "forbidden", and every other
   * refusal, create's failures included, is a bad request.
   */
  function HttpStatus(e: Rejection): (code: int)
    ensures code == 404 <==> e == GameNotFound
    ensures code == 403 <==> e == NotCreator
    ensures code != 404 && code != 403 ==> code == 400
  {
    match e
    case GameNotFound => 404
    case NotCreator => 403
    case _ => 400
  }

  predicate NoDup(s: seq<UserId>)
  {
    forall i, j :: 0 <= i < j < |s| ==> s[i] != s[j]
  }

  /** The fields the schema constrains: `name` is required, `maxPlayers` lies in 2..4. */
  predicate SchemaOk(g: Game)
  {
    g.name != "" && 2 <= g.maxPlayers <= 4
  }

  /**
   * The record invariant the lobby handlers keep: at least one and at most
   * maxPlayers distinct players, the creator among them, a waiting game never
   * full, and no spectator listed twice.
   */
  predicate WellFormed(g: Game)
  {
    && SchemaOk(g)
    && 1 <= |g.players| <= g.maxPlayers
    && NoDup(g.players)
    && g.creator in g.players
    && (g.status == Waiting ==> |g.players| < g.maxPlayers)
    && NoDup(g.spectators)
  }

  /** No user spectates two games at once. */
  ghost predicate SingleSpectate(db: map<GameId, Game>)
  {
    forall i, j, u :: i in db && j in db && u in db[i].spectators && u in db[j].spectators ==> i == j
  }

  /** The array filter the handlers use to drop a user: every occurrence of `u` goes, the rest keep their order. */
  function Without(s: seq<UserId>, u: UserId): (r: seq<UserId>)
    ensures forall x :: x in r <==> x in s && x != u
    ensures |r| <= |s|
    ensures u in s ==> |r| < |s|
    ensures u !in s ==> r == s
    ensures NoDup(s) ==> NoDup(r)
  {
    if s == [] then []
    else if s[0] == u then Without(s[1..], u)
    else
      assert NoDup(s) ==> NoDup(s[1..]) && s[0] !in s[1..] by {
        if NoDup(s) {
          forall k | 1 <= k < |s| ensures s[k] != s[0] { }
        }
      }
      [s[0]] + Without(s[1..], u)
  }

  /** Filtering distributes over concatenation: the relative order of the kept ids is unchanged. */
  lemma {:induction false} WithoutConcat(a: seq<UserId>, b: seq<UserId>, u: UserId)
    ensures Without(a + b, u) == Without(a, u) + Without(b, u)
  {
    if a == [] {
      assert a + b == b;
    } else {
      assert (a + b)[1..] == a[1..] + b;
      WithoutConcat(a[1..], b, u);
    }
  }

  /** In a list without repeats, removing the id at position `i` closes the gap at `i`. */
  lemma {:induction false} WithoutRemovesAt(s: seq<UserId>, i: nat)
    requires NoDup(s) && i < |s|
    ensures Without(s, s[i]) == s[..i] + s[i + 1..]
  {
    var u := s[i];
    assert s == s[..i] + ([u] + s[i + 1..]);
    WithoutConcat(s[..i], [u] + s[i + 1..], u);
    WithoutConcat([u], s[i + 1..], u);
    assert u !in s[..i] by {
      forall k | 0 <= k < i ensures s[..i][k] != u { }
    }
    assert u !in s[i + 1..] by {
      forall k | i < k < |s| ensures s[k] != u { }
    }
  }

  /** Leaving undoes the players change of a join: the appended id is dropped and the rest is as before. */
  lemma {:induction false} JoinThenLeave(s: seq<UserId>, u: UserId)
    requires u !in s
    ensures Without(s + [u], u) == s
  {
    WithoutConcat(s, [u], u);
  }

  /**
   * When a player leaves a game with several distinct players, the first
   * remaining player is the second player if the leaver was first, and the
   * first player otherwise.
   */
  lemma FirstRemaining(s: seq<UserId>, u: UserId)
    requires NoDup(s) && u in s && |s| >= 2
    ensures Without(s, u) != []
    ensures Without(s, u)[0] == if s[0] == u then s[1] else s[0]
  {
  }

  /** Appending an id that is not yet listed keeps a list free of repeats. */
  lemma AppendFresh(s: seq<UserId>, u: UserId)
    requires NoDup(s) && u !in s
    ensures NoDup(s + [u])
  {
  }

  /**
   * Adding a user to one game's spectators keeps every user in at most one
   * game's spectators, provided the user spectated nothing before.
   */
  lemma AddSpectatorKeepsSingle(db: map<GameId, Game>, id: GameId, u: UserId)
    requires id in db && SingleSpectate(db)
    requires forall k :: k in db ==> u !in db[k].spectators
    ensures SingleSpectate(db[id := db[id].(spectators := db[id].spectators + [u])])
  {
  }

  /**
   * The document built on create, checked by the schema validators on save:
   * the creator is the only player, status and spectators take their schema
   * defaults, and a falsy (absent or zero) `maxPlayers` becomes 2; any other
   * value is kept and must pass the 2..4 bounds.
   */
  function NewGame(name: string, creator: UserId, maxPlayers: Option<int>): (r: Result<Game>)
    ensures r.Ok? <==> name != "" && (maxPlayers == None || maxPlayers == Some(0) || 2 <= maxPlayers.value <= 4)
    ensures r.Err? ==> r.error == InvalidGame
    ensures r.Ok? ==> WellFormed(r.value)
    ensures r.Ok? ==> r.value.creator == creator && r.value.players == [creator]
    ensures r.Ok? ==> r.value.name == name && r.value.spectators == [] && r.value.status == Waiting
    ensures r.Ok? && (maxPlayers == None || maxPlayers == Some(0)) ==> r.value.maxPlayers == 2
    ensures r.Ok? && maxPlayers.Some? && maxPlayers.value != 0 ==> r.value.maxPlayers == maxPlayers.value
  {
    var limit := if maxPlayers.None? || maxPlayers.value == 0 then 2 else maxPlayers.value;
    var g := Game(name, creator, [creator], [], Waiting, limit);
    if SchemaOk(g) then Ok(g) else Err(InvalidGame)
  }

  /** Whether some stored game already has this name (the unique index on `name`). */
  predicate NameTaken(db: map<GameId, Game>, name: string)
  {
    exists k :: k in db && db[k].name == name
  }

  /**
   * The database-wide `$pull` that spectate issues before it adds the user:
   * the user leaves the spectators of every game; nothing else changes.
   */
  function PullSpectator(db: map<GameId, Game>, u: UserId): (r: map<GameId, Game>)
    ensures r.Keys == db.Keys
    ensures forall k :: k in r ==> u !in r[k].spectators
    ensures forall k, v :: k in r && v != u ==> (v in r[k].spectators <==> v in db[k].spectators)
    ensures forall k :: k in r ==> r[k].(spectators := db[k].spectators) == db[k]
    ensures forall k :: k in r && WellFormed(db[k]) ==> WellFormed(r[k])
    ensures SingleSpectate(db) ==> SingleSpectate(r)
  {
    map k | k in db :: db[k].(spectators := Without(db[k].spectators, u))
  }
}
