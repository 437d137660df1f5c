/**
 * The lobby route handlers of server/routes/games.js over an in-memory game
 * collection. Each handler loads one record, checks its guards in the order
 * the route does (the first failing guard decides the refusal and nothing is
 * written), then edits the loaded record field by field and saves it back.
 * The acting user is a parameter: authentication happens before the handler.
 */
module GameRoutes {
  import opened GameModel

  /** What a handler answers: the record was saved, removed, or the request refused. */
  datatype Response = Saved | Removed | Rejected(reason: Rejection)

  class GameStore {
    /** The games collection, by document id. */
    var games: map<GameId, Game>
    /** The id the next created game receives. */
    var nextId: GameId

    /** Every stored id was handed out before. */
    ghost predicate Valid()
      reads this
    {
      forall k :: k in games ==> k < nextId
    }

    /**
     * The lobby invariant the six handlers keep (other routes that pull
     * players directly can break it, so the handlers do not rely on it).
     */
    ghost predicate Consistent()
      reads this
    {
      && (forall k :: k in games ==> WellFormed(games[k]))
      && SingleSpectate(games)
    }

    constructor ()
      ensures Valid() && Consistent()
      ensures games == map[] && nextId == 0
    {
      games := map[];
      nextId := 0;
    }

    /** POST / : create a game whose creator and only player is `user`. */
    method Create(user: UserId, name: string, maxPlayers: Option<int>) returns (r: Result<GameId>)
      requires Valid()
      modifies this
      ensures Valid()
      ensures NewGame(name, user, maxPlayers).Err? ==>
        r == Err(InvalidGame) && games == old(games) && nextId == old(nextId)
      ensures NewGame(name, user, maxPlayers).Ok? && NameTaken(old(games), name) ==>
        r == Err(DuplicateName) && games == old(games) && nextId == old(nextId)
      ensures NewGame(name, user, maxPlayers).Ok? && !NameTaken(old(games), name) ==>
        && r == Ok(old(nextId))
        && old(nextId) !in old(games)
        && games == old(games)[old(nextId) := NewGame(name, user, maxPlayers).value]
        && nextId == old(nextId) + 1
      ensures r.Ok? ==> games[r.value].players == [user] && games[r.value].status == Waiting
      ensures old(Consistent()) ==> Consistent()
    {
      var built := NewGame(name, user, maxPlayers);
      if built.Err? {
        return Err(built.error);
      }
      if NameTaken(games, name) {
        return Err(DuplicateName);
      }
      var id := nextId;
      games := games[id := built.value];
      nextId := nextId + 1;
      r := Ok(id);
    }

    /** POST /:id/join : add `user` as the last player; a game that becomes full starts. */
    method Join(id: GameId, user: UserId) returns (r: Response)
      requires Valid()
      modifies this`games
      ensures Valid()
      ensures r.Rejected? ==> games == old(games)
      ensures id !in old(games) ==> r == Rejected(GameNotFound)
      ensures id in old(games) ==>
        var g := old(games)[id];
        && (g.status != Waiting ==> r == Rejected(NotAcceptingPlayers))
        && (g.status == Waiting && user in g.players ==> r == Rejected(AlreadyInGame))
        && (g.status == Waiting && user !in g.players && |g.players| >= g.maxPlayers ==> r == Rejected(GameFull))
        && (g.status == Waiting && user !in g.players && |g.players| < g.maxPlayers ==>
              && r == Saved
              && id in games
              && games == old(games)[id := games[id]]
              && games[id].players == g.players + [user]
              && |games[id].players| <= g.maxPlayers
              && (games[id].status == InProgress <==> |games[id].players| == g.maxPlayers)
              && (games[id].status != InProgress ==> games[id].status == Waiting)
              && games[id].(players := g.players, status := g.status) == g)
      ensures old(Consistent()) ==> Consistent() && r != Rejected(GameFull)
    {
      if id !in games {
        return Rejected(GameNotFound);
      }
      var game := games[id];
      if game.status != Waiting {
        return Rejected(NotAcceptingPlayers);
      }
      if user in game.players {
        return Rejected(AlreadyInGame);
      }
      if |game.players| >= game.maxPlayers {
        return Rejected(GameFull);
      }
      game := game.(players := game.players + [user]);
      if |game.players| == game.maxPlayers {
        game := game.(status := InProgress);
      }
      if old(Consistent()) {
        AppendFresh(old(games)[id].players, user);
      }
      games := games[id := game];
      r := Saved;
    }

    /**
     * POST /:id/leave : drop every occurrence of `user` from the players. The
     * game is removed when nobody is left; otherwise a leaving creator hands
     * the role to the first remaining player.
     */
    method Leave(id: GameId, user: UserId) returns (r: Response)
      requires Valid()
      modifies this`games
      ensures Valid()
      ensures r.Rejected? ==> games == old(games)
      ensures id !in old(games) ==> r == Rejected(GameNotFound)
      ensures id in old(games) && user !in old(games)[id].players ==> r == Rejected(NotInGame)
      ensures id in old(games) && user in old(games)[id].players ==>
        var g := old(games)[id];
        var rest := Without(g.players, user);
        && (rest == [] ==> r == Removed && games == old(games) - {id})
        && (rest != [] ==>
              && r == Saved
              && id in games
              && games == old(games)[id := g.(players := rest, creator := games[id].creator)]
              && games[id].creator == if g.creator == user then rest[0] else g.creator)
      ensures old(Consistent()) && r == Saved ==>
        var g := old(games)[id];
        games[id].creator == (if g.creator != user then g.creator else if g.players[0] == user then g.players[1] else g.players[0])
      ensures old(Consistent()) ==> Consistent()
    {
      if id !in games {
        return Rejected(GameNotFound);
      }
      var game := games[id];
      if user !in game.players {
        return Rejected(NotInGame);
      }
      game := game.(players := Without(game.players, user));
      if |game.players| == 0 {
        games := games - {id};
        return Removed;
      }
      if game.creator == user {
        game := game.(creator := game.players[0]);
      }
      games := games[id := game];
      r := Saved;
      if old(Consistent()) {
        FirstRemaining(old(games)[id].players, user);
      }
    }

    /** DELETE /:id : only the creator may remove a game, and only while at most one player is in. */
    method Delete(id: GameId, user: UserId) returns (r: Response)
      requires Valid()
      modifies this`games
      ensures Valid()
      ensures r.Rejected? ==> games == old(games)
      ensures id !in old(games) ==> r == Rejected(GameNotFound)
      ensures id in old(games) && old(games)[id].creator != user ==> r == Rejected(NotCreator)
      ensures id in old(games) && old(games)[id].creator == user && |old(games)[id].players| > 1 ==>
        r == Rejected(HasActivePlayers)
      ensures id in old(games) && old(games)[id].creator == user && |old(games)[id].players| <= 1 ==>
        r == Removed && games == old(games) - {id}
      ensures old(Consistent()) && r == Removed ==> old(games)[id].players == [user]
      ensures old(Consistent()) ==> Consistent()
    {
      if id !in games {
        return Rejected(GameNotFound);
      }
      var game := games[id];
      if game.creator != user {
        return Rejected(NotCreator);
      }
      if |game.players| > 1 {
        return Rejected(HasActivePlayers);
      }
      games := games - {id};
      r := Removed;
    }

    /**
     * POST /:id/spectate : a user who is not a player of the game stops
     * spectating every game, then is appended to this game's spectators.
     */
    method Spectate(id: GameId, user: UserId) returns (r: Response)
      requires Valid()
      modifies this`games
      ensures Valid()
      ensures r.Rejected? ==> games == old(games)
      ensures id !in old(games) ==> r == Rejected(GameNotFound)
      ensures id in old(games) && user in old(games)[id].players ==> r == Rejected(PlayerCannotSpectate)
      ensures id in old(games) && user !in old(games)[id].players ==>
        var pulled := PullSpectator(old(games), user);
        && r == Saved
        && games == pulled[id := pulled[id].(spectators := pulled[id].spectators + [user])]
      ensures r == Saved ==>
        && user in games[id].spectators
        && forall k :: k in games && k != id ==> user !in games[k].spectators
      ensures old(Consistent()) ==> Consistent()
    {
      if id !in games {
        return Rejected(GameNotFound);
      }
      var game := games[id];
      if user in game.players {
        return Rejected(PlayerCannotSpectate);
      }
      games := PullSpectator(games, user);
      // The save sends the push as an atomic array update, so it lands on the
      // stored spectators as they are after the pull.
      ghost var pulled := games;
      game := games[id];
      game := game.(spectators := game.spectators + [user]);
      games := games[id := game];
      r := Saved;
      if old(Consistent()) {
        AppendFresh(pulled[id].spectators, user);
        AddSpectatorKeepsSingle(pulled, id, user);
      }
    }

    /** POST /:id/leave-spectate : drop every occurrence of `user` from this game's spectators. */
    method LeaveSpectate(id: GameId, user: UserId) returns (r: Response)
      requires Valid()
      modifies this`games
      ensures Valid()
      ensures id !in old(games) ==> r == Rejected(GameNotFound) && games == old(games)
      ensures id in old(games) ==>
        && r == Saved
        && games == old(games)[id := old(games)[id].(spectators := Without(old(games)[id].spectators, user))]
        && user !in games[id].spectators
      ensures old(Consistent()) ==> Consistent()
    {
      if id !in games {
        return Rejected(GameNotFound);
      }
      var game := games[id];
      game := game.(spectators := Without(game.spectators, user));
      games := games[id := game];
      r := Saved;
    }
  }
}
