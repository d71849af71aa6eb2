/**
 * The game registry: a table from game id to game object and a table from
 * game id to the game's info (players and termination password). Each
 * coroutine of the registry is one atomic update; the simulated query delay
 * is not modelled, and the fresh ids and passwords that uuid4 generates are
 * parameters.
 */
module TicTacToeRegistry {
  import opened Wrappers
  import opened TicTacToeGame

  /** The info dataclass kept per game. */
  datatype TicTacToeInfo = TicTacToeInfo(gameUuid: string, players: seq<string>, terminationPassword: string)

  /** The outcome of a delete: success, HTTP 401 or HTTP 404. */
  datatype DelOutcome = Ok | Unauthorized | NotFound

  /** The outcome of add_game as written: it raises TypeError building the info. */
  datatype AddOutcome = Added(gameId: string, password: string) | TypeError

  class TicTacToeDB {
    var currentGames: map<string, TicTacToe>
    var currentGamesInfo: map<string, TicTacToeInfo>

    /**
     * Every live game has its info, filed under its own id. Info outlives a
     * deleted game, so the converse does not hold.
     */
    ghost predicate Valid()
      reads this
    {
      currentGames.Keys <= currentGamesInfo.Keys &&
      forall id :: id in currentGamesInfo ==> currentGamesInfo[id].gameUuid == id
    }

    constructor ()
      ensures Valid() && currentGames == map[] && currentGamesInfo == map[]
    {
      currentGames := map[];
      currentGamesInfo := map[];
    }

    /**
     * add_game with the info record it evidently means to build: a new game
     * under the fresh id, info with no players and the fresh password, and no
     * other entry touched. Returns the id and the password.
     */
    method AddGame(gameId: string, password: string) returns (id: string, termPassword: string)
      requires Valid()
      requires gameId !in currentGames && gameId !in currentGamesInfo
      modifies this
      ensures Valid()
      ensures id == gameId && termPassword == password
      ensures gameId in currentGames && fresh(currentGames[gameId])
      ensures currentGames[gameId].Valid() && currentGames[gameId].Consistent() && currentGames[gameId].Initial()
      ensures currentGames == old(currentGames)[gameId := currentGames[gameId]]
      ensures currentGamesInfo == old(currentGamesInfo)[gameId := TicTacToeInfo(gameId, [], password)]
    {
      var game := new TicTacToe();
      currentGames := currentGames[gameId := game];
      currentGamesInfo := currentGamesInfo[gameId := TicTacToeInfo(gameId, [], password)];
      id, termPassword := gameId, password;
    }

    /**
     * add_game as written: the game is stored, then building the info with
     * two arguments for a three-field record raises TypeError, so no info is
     * stored and nothing is returned.
     */
    method AddGameAsWritten(gameId: string, password: string) returns (r: AddOutcome)
      requires gameId !in currentGames && gameId !in currentGamesInfo
      modifies this
      ensures r == TypeError
      ensures gameId in currentGames && fresh(currentGames[gameId])
      ensures currentGames[gameId].Valid() && currentGames[gameId].Consistent() && currentGames[gameId].Initial()
      ensures currentGames == old(currentGames)[gameId := currentGames[gameId]]
      ensures currentGamesInfo == old(currentGamesInfo)
    {
      var game := new TicTacToe();
      currentGames := currentGames[gameId := game];
      r := TypeError;
    }

    /** get_game_info: the stored info; None stands for the KeyError of an unknown id. */
    function GetGameInfo(gameId: string): (r: Option<TicTacToeInfo>)
      reads this
      ensures r.Some? <==> gameId in currentGamesInfo
      ensures r.Some? ==> r.value == currentGamesInfo[gameId]
    {
      if gameId in currentGamesInfo then Some(currentGamesInfo[gameId]) else None
    }

    /** get_game: the stored game, or None for an id with no live game. */
    function GetGame(gameId: string): (r: Option<TicTacToe>)
      reads this
      ensures r.Some? <==> gameId in currentGames
      ensures r.Some? ==> r.value == currentGames[gameId]
    {
      if gameId in currentGames then Some(currentGames[gameId]) else None
    }

    /** list_games: every id of a live game, each exactly once. */
    method ListGames() returns (ids: seq<string>)
      ensures forall id :: id in ids <==> id in currentGames
      ensures forall i, j :: 0 <= i < j < |ids| ==> ids[i] != ids[j]
    {
      ids := [];
      var rest := currentGames.Keys;
      while rest != {}
        invariant rest <= currentGames.Keys
        invariant forall id :: id in ids <==> id in currentGames && id !in rest
        invariant forall i, j :: 0 <= i < j < |ids| ==> ids[i] != ids[j]
        decreases rest
      {
        var id :| id in rest;
        ids := ids + [id];
        rest := rest - {id};
      }
    }

    /**
     * del_game: an id with no info gives 404; a wrong password gives 401;
     * the right password removes the live game (its info stays) and succeeds,
     * or gives 404 when the game is already gone. Only a success changes state.
     */
    method DelGame(gameId: string, termPass: string) returns (r: DelOutcome)
      modifies this
      ensures old(Valid()) ==> Valid()
      ensures currentGamesInfo == old(currentGamesInfo)
      ensures gameId !in currentGamesInfo ==> r == NotFound
      ensures gameId in currentGamesInfo && currentGamesInfo[gameId].terminationPassword != termPass ==>
        r == Unauthorized
      ensures gameId in currentGamesInfo && currentGamesInfo[gameId].terminationPassword == termPass ==>
        r == (if gameId in old(currentGames) then Ok else NotFound)
      ensures r == Ok ==> currentGames == old(currentGames) - {gameId}
      ensures r != Ok ==> currentGames == old(currentGames)
    {
      if gameId !in currentGamesInfo {
        return NotFound;
      }
      if currentGamesInfo[gameId].terminationPassword == termPass {
        if gameId !in currentGames {
          return NotFound;
        }
        currentGames := currentGames - {gameId};
        return Ok;
      } else {
        return Unauthorized;
      }
    }
  }

  /**
   * For any live game: a delete with its password succeeds, the game can no
   * longer be looked up, and a second delete with the same password gives 404.
   */
  method DeleteTwice(db: TicTacToeDB, gameId: string, password: string)
    returns (first: DelOutcome, after: Option<TicTacToe>, second: DelOutcome)
    requires gameId in db.currentGames && gameId in db.currentGamesInfo
    requires db.currentGamesInfo[gameId].terminationPassword == password
    modifies db
    ensures first == Ok && after == None && second == NotFound
    ensures db.currentGamesInfo == old(db.currentGamesInfo)
  {
    first := db.DelGame(gameId, password);
    after := db.GetGame(gameId);
    second := db.DelGame(gameId, password);
  }

  /**
   * With a wrong password the game stays retrievable; with the right one it
   * is gone, and a second delete with the same password finds nothing.
   */
  method DeleteScenario()
    returns (wrong: DelOutcome, kept: bool, first: DelOutcome, gone: bool, second: DelOutcome, infoKept: bool)
    ensures wrong == Unauthorized && kept
    ensures first == Ok && gone && second == NotFound && infoKept
  {
    var db := new TicTacToeDB();
    var id, password := db.AddGame("game-1", "secret");
    wrong := db.DelGame(id, "guess");
    kept := db.GetGame(id).Some?;
    first := db.DelGame(id, password);
    gone := db.GetGame(id).None?;
    second := db.DelGame(id, password);
    infoKept := db.GetGameInfo(id) == Some(TicTacToeInfo(id, [], password));
  }

  /**
   * add_game as written leaves a game with no info: it is listed and
   * retrievable, yet deleting it with the password it was made with gives 404.
   */
  method AddGameAsWrittenScenario() returns (added: AddOutcome, listed: bool, deleted: DelOutcome)
    ensures added == TypeError && listed && deleted == NotFound
  {
    var db := new TicTacToeDB();
    added := db.AddGameAsWritten("game-1", "secret");
    var ids := db.ListGames();
    listed := "game-1" in ids;
    deleted := db.DelGame("game-1", "secret");
  }
}
