# Tic-tac-toe engine and game registry, modelled in Dafny

This project models two parts of a small multi-game tic-tac-toe server.

The first is the game engine, the `TicTacToe` class in `tictactoe/tictactoe.py`. It holds a
nine-cell board and a list of claimed cells (1-based) for each sign. It also holds the player
each sign is assigned to, the two player names, the current player and the current sign. Its
operations are: the move check, the board update, the sign lookup, the turn switch, the sign
choice, draw detection, win detection against the eight winning triples, and the game loop.
The loop validates a move, places it, checks for a win, then for a draw, and only then
switches the turn.

The second is the registry, `AsyncTicTacToeDB` in `tictactoe_db.py`. It keeps two tables, one
from game id to game object and one from game id to game info (players and termination
password). Its operations are create, look up, list and password-guarded delete.

Files:

- `wrappers.dfy`: module `Wrappers`, the `Option` datatype.
- `tictactoe.dfy`: module `TicTacToeGame`. It has the `TicTacToe` class, whose fields are
  `seq`/`map` values that the methods reassign. It also has the pure predicates the class
  uses (`MoveAllowed`, `IsDraw`, `HasLine`), the board invariant `BoardAgrees`, and lemmas
  about all of them. `GameState` is the object's fields as one value. On it, `Turn` is one
  pass of `run`'s loop (move check, update, win, draw, switch) and `Play` is the whole loop.
  `PlayTurn` and `Run` are proved to compute exactly these.
- `tictactoe_db.dfy`: module `TicTacToeRegistry`, the `TicTacToeDB` class with two `map`
  fields, and client methods that replay the delete scenarios.

How the Python is represented:

- The empty sign `''` that `_CUR_SIGN` starts with is `None`.
- The dictionaries keyed by sign are `map<Sign, …>`. They are iterated in their insertion
  order, `ChoiceOrder = [X, O]`.
- One cell value needs its own constructor, `Cell.Unsigned`. `update_board` writes this
  empty string into a cell when `current_sign` finds no sign: no key names the current
  player and no sign was computed earlier in the game (otherwise that stale sign is reused).
  It writes it just before the `KeyError` on the position dictionary.
- Player names, sign choices and move numbers are method parameters. They stand in for
  console input.
- The fresh ids and passwords from `uuid4` are parameters, and a precondition says the id is
  new.
- The `HTTPException`s of `del_game` are the `DelOutcome` values `Unauthorized` (401) and
  `NotFound` (404).

In these places the model follows what the code does:

- `del_game` removes only the game. Its info entry survives, so the registry invariant is
  only "every live game has info".
- No owner check, player capacity or per-game lock exists in the code, so none is modelled.
- Some unit tests expect values the code does not produce, and the model follows the code:
  - `test_tictactoe.py:16` expects a list from `initial_setup`, which returns a 3-tuple.
  - `test_tictactoe.py:42` expects a result from `update_board`, which returns nothing.
  - `test_tictactoe.py:51` expects `(sign, name)` from `switch_turn`, which returns
    `(name, sign)`.
  - The win test at `test_tictactoe.py:61-64` never sets the current sign, so its
    scenario is stated on `HasLine` directly.
  - The update test at `test_tictactoe.py:39-44` expects X at cell 5 on a new game. With no
    choice made, both keys hold "" like the current player, so the code places O
    (`UpdateBoardFreshGameScenario`). `UpdateBoardScenario` first gives X to user1 and then
    reproduces the expected board.
  - The switch test at `test_tictactoe.py:46-51` never sets the player names. The turn
    passes to player 1, "", who holds no sign, so the code returns `("", "")`
    (`SwitchTestSetupScenario`). `ChooseAndSwitchScenario` sets the names first.

## Model

| member | source | states |
|---|---|---|
| `TicTacToeGame.TicTacToe.constructor` | tictactoe/tictactoe.py:19-30 | A new game has nine blank cells, two empty position lists, both signs assigned to "", empty names and no sign; this state satisfies the board invariant |
| `TicTacToeGame.EmptyBoardAgrees` | tictactoe/tictactoe.py:24-25 | The empty board and the empty position lists satisfy the board invariant |
| `TicTacToeGame.TicTacToe.SetPlayers` | tictactoe/tictactoe.py:41-43 | The state change of initial setup: player 1 and player 2 are set, player 1 moves first, and the result is (current, player 1, player 2) |
| `TicTacToeGame.Opponent` | tictactoe/tictactoe.py:130-133 | The other player: player 2 for player 1 and player 1 for anyone else, as in switch_turn and in both branches of player_choice (lines 60-63, 68-71); its properties are `OpponentToggles` |
| `TicTacToeGame.Choose` | tictactoe/tictactoe.py:58-75 | The assignment a choice leaves. A valid choice adds both sign keys and nothing else, and any other answer adds none; what the assignment means for the sign lookup is `ChosenSignIsFound` |
| `TicTacToeGame.ChosenSignIsFound` | tictactoe/tictactoe.py:58-81 | Between two distinct players, after choice 1 the chooser's lookup finds X and the other player's finds O; after choice 2 the reverse; after any other answer the assignment is unchanged |
| `TicTacToeGame.TicTacToe.PlayerChoice` | tictactoe/tictactoe.py:58-75 | Choice 1 gives X to the current player and O to the other player; choice 2 gives O to the current player and X to the other; both return False. Any other number leaves the assignment unchanged and returns True. The new assignment is `Choose` of the old one |
| `TicTacToeGame.LastMatch` | tictactoe/tictactoe.py:78-80 | The sign scan returns the previous sign when no key names the player. When some key does, it returns a key whose player is that name |
| `TicTacToeGame.TicTacToe.CurrentSign` | tictactoe/tictactoe.py:77-81 | The loop over the sign dictionary sets the current sign to the scan's result and returns it |
| `TicTacToeGame.CurrentSignByOrder` | tictactoe/tictactoe.py:77-81 | With keys iterated X then O: the result is O if O names the player, else X if X names the player, else the sign is unchanged |
| `TicTacToeGame.AssignedPlayerGetsSign` | tictactoe/tictactoe.py:129-135 | When the two signs belong to different players, the sign found for the holder of sign k is k, whatever the previous sign was |
| `TicTacToeGame.TicTacToe.SwitchTurn` | tictactoe/tictactoe.py:129-135 | The turn passes from player 1 to player 2 and from anyone else to player 1. The sign is recomputed for the new player, and the result is (new player, new sign) |
| `TicTacToeGame.OpponentToggles` | tictactoe/tictactoe.py:130-133 | Switching keeps the turn within the two players. When the names differ it changes the player, and two switches restore the original |
| `TicTacToeGame.MoveAllowed` | tictactoe/tictactoe.py:104-111 | The move check on a board: a move outside 1..9 fails, otherwise the cell must be blank; what it means for the position lists is `MoveAllowedIffUnclaimed` |
| `TicTacToeGame.TicTacToe.PlayerMoveCheck` | tictactoe/tictactoe.py:104-111 | The move check on the game's own board, `MoveAllowed` of its cells |
| `TicTacToeGame.MoveAllowedIffUnclaimed` | tictactoe/tictactoe.py:104-111 | Under the board invariant, a move passes the check exactly when it is in 1..9 and in neither player's position list |
| `TicTacToeGame.TicTacToe.UpdateBoard` | tictactoe/tictactoe.py:113-116 | The cell gets the resolved sign and the move is appended to that sign's list. The other eight cells and the other sign's list are unchanged. With no sign, the cell holds the empty string and the call fails. A placement after a passing check keeps the board invariant |
| `TicTacToeGame.PlaceKeepsAgreement` | tictactoe/tictactoe.py:108-116 | Placing either sign on a cell that passed the check keeps the invariant: each marked cell is listed under its sign, each listed move is a cell with that sign, and the list lengths sum to the number of marked cells |
| `TicTacToeGame.MarkedCellListedOnce` | tictactoe/tictactoe.py:115-116 | Under the invariant, a marked cell i has i+1 in its own sign's list and not in the other's |
| `TicTacToeGame.IsDraw` | tictactoe/tictactoe.py:137-140 | The draw test: the two lists hold nine moves between them; what it means for the board is `DrawIffFull` |
| `TicTacToeGame.TicTacToe.CheckDraw` | tictactoe/tictactoe.py:137-140 | The draw test on the game's own lists, `IsDraw` of them |
| `TicTacToeGame.DrawIffFull` | tictactoe/tictactoe.py:137-140 | Under the invariant, the draw test (9 moves between the lists) holds exactly when no cell is blank |
| `TicTacToeGame.CheckDrawScenario` | tictactoe/test_tictactoe.py:53-59 | Lists of 5 and 4 moves make a draw; 4 and 4 do not |
| `TicTacToeGame.LineFilled` | tictactoe/tictactoe.py:145 | All cells of one triple are among the positions, the `all(...)` of line 145 |
| `TicTacToeGame.HasLine` | tictactoe/tictactoe.py:142-147 | Some triple of the constant `WinLines` (the list of line 143) is filled; its meaning on the board is `WinIffBoardLine` and its geometry `HasLineIffGeometric` |
| `TicTacToeGame.TicTacToe.CheckWinner` | tictactoe/tictactoe.py:142-147 | The win test on the current sign's positions, `HasLine` of them |
| `TicTacToeGame.WinIffBoardLine` | tictactoe/tictactoe.py:142-147 | Under the invariant, a sign's positions contain a winning triple exactly when all three cells of some triple hold that sign |
| `TicTacToeGame.HasLineIffGeometric` | tictactoe/tictactoe.py:143 | The eight triples are exactly the three rows, three columns and two diagonals of the row-major 3x3 grid |
| `TicTacToeGame.NoWinBeforeThirdMove` | tictactoe/tictactoe.py:143-147 | A position list with fewer than three entries contains no winning triple |
| `TicTacToeGame.CheckWinScenario` | tictactoe/test_tictactoe.py:62-67 | Positions [3, 1, 2] contain a triple; [3, 1, 9] contain none |
| `TicTacToeGame.TicTacToe.PlayTurn` | tictactoe/tictactoe.py:153-165 | A move that fails the check is rejected and changes nothing. Otherwise the board is updated, then a win is tested, then a draw, so a winning move that fills the board is a win. Only with neither does the turn pass to the opponent. The board invariant is kept, and the outcome and new state are exactly `Turn` of the old state |
| `TicTacToeGame.AfterSetup` | tictactoe/tictactoe.py:41-75 | The state after initial_setup and player_choice answered by player 1: both names set, player 1 to move, and the assignment `Choose` leaves; the result keeps the state's shape |
| `TicTacToeGame.NewGame` | tictactoe/tictactoe.py:19-75 | `AfterSetup` from the constructor's state |
| `TicTacToeGame.Turn` | tictactoe/tictactoe.py:104-135 | One pass of the loop on a state value: a failed check changes nothing; with no sign the cell gets the empty string; otherwise the sign is placed, a win is tested before a draw, and only with neither does the turn pass on. Names and assignment are kept |
| `TicTacToeGame.Play` | tictactoe/tictactoe.py:153-165 | The loop over the submitted moves: it stops at the first turn that wins, draws or finds no sign, and otherwise reads every move. Names and assignment are kept |
| `TicTacToeGame.PlayOnward` | tictactoe/tictactoe.py:153-165 | A rejected move or a turn that passes the turn on hands the rest of the input to the next state |
| `TicTacToeGame.PlayEnds` | tictactoe/tictactoe.py:153-165 | A game is unfinished only when every move was read. A win leaves the winner to move with a winning triple under the winner's sign. A draw leaves nine moves in the lists and no triple under the last mover's sign |
| `TicTacToeGame.PlayIgnoresLaterMoves` | tictactoe/tictactoe.py:156-163 | Once the moves read end the game, moves submitted after them change neither the result, nor the count, nor the final state: the loop breaks |
| `TicTacToeGame.PassingTurn` | tictactoe/tictactoe.py:113-135 | A move on a blank cell, with a sign found and no win and no full board, places the sign, appends the move and passes the turn to the other player with that player's sign |
| `TicTacToeGame.AlternatingPass` | tictactoe/tictactoe.py:113-135 | Between two players holding one sign each, a passing move places the mover's sign whatever sign was computed before, and hands the turn and the other sign to the other player |
| `TicTacToeGame.TopRowGameScenario` | tictactoe/tictactoe.py:149-165 | For any two distinct players: X for player 1 and moves 1, 4, 2, 5, 3 end in a win for player 1 after five moves |
| `TicTacToeGame.TicTacToe.PlayMoves` | tictactoe/tictactoe.py:153-165 | The move loop: the result, the count of moves read and the final state are exactly `Play` from the starting state; a win leaves the current player as winner with a triple, a draw leaves no triple and full lists, and the board invariant survives unless a lookup fails |
| `TicTacToeGame.TicTacToe.Run` | tictactoe/tictactoe.py:149-165 | As written: the new assignment is `Choose` of the old one with player 1 answering, so the ignored retry leaves it unchanged. The result, the count of moves read and the final state are exactly `Play` from the state `AfterSetup` gives. So the game stops at the first win (the current player wins), draw (no win, full lists) or failed sign lookup, and otherwise reads all input |
| `TicTacToeGame.TopRowRunScenario` | tictactoe/tictactoe.py:149-165 | `Run` on a new game with moves 1, 4, 2, 5, 3, 9 returns a win for "a" after five moves; the sixth move is never read |
| `TicTacToeGame.NoSignEndsAtFirstMove` | tictactoe/tictactoe.py:113-116 | On an empty board where the sign lookup finds nothing (no key names the current player and no sign was computed before), moves outside 1..9 are refused, and the game ends in a failed sign lookup exactly when some move is in 1..9 |
| `TicTacToeGame.IgnoredRetryEndsInSignError` | tictactoe/tictactoe.py:73-75 | On a new game whose player 1 has a non-empty name, an answer other than 1 or 2 leaves no sign assigned. The game ends in a failed sign lookup exactly when some submitted move is in 1..9, and otherwise is unfinished |
| `TicTacToeGame.IgnoredRetryWithEmptyName` | tictactoe/tictactoe.py:73-81 | On a new game whose player 1 is named "", an answer other than 1 or 2 leaves both keys "", player 1's lookup settles on O, and no game ends in a failed sign lookup |
| `TicTacToeGame.EmptyNameSharesSignScenario` | tictactoe/tictactoe.py:77-135 | In that game, "" places O at 5 and the turn passes to "b", who matches no key and inherits O |
| `TicTacToeGame.HeldSignsResolve` | tictactoe/tictactoe.py:77-81 | When the two players hold the two signs and one of them is to move, the sign lookup finds a sign |
| `TicTacToeGame.TurnKeepsSignResolving` | tictactoe/tictactoe.py:77-135 | While the lookup finds a sign, a turn never fails it, and a turn that passes on leaves it finding one: the sign computed stays as the fallback |
| `TicTacToeGame.ResolvedSignNeverFails` | tictactoe/tictactoe.py:153-165 | From a state whose sign lookup succeeds, no game ends in a failed sign lookup, for every sequence of moves |
| `TicTacToeGame.FirstValidIndex` | tictactoe/tictactoe.py:45-75 | The index of the first answer that is 1 or 2: every earlier answer is invalid, and the index is the length of the answers exactly when none is valid |
| `TicTacToeGame.ValidChoiceHoldsSigns` | tictactoe/tictactoe.py:58-71 | After a valid answer the two players hold the two signs and player 1 is to move |
| `TicTacToeGame.TicTacToe.RetryChoice` | tictactoe/tictactoe.py:45-75 | Corrected retry: the assignment is `Choose` of the first valid answer, and the flag stays set, with nothing assigned, exactly when no answer is valid |
| `TicTacToeGame.InvalidChoiceRunScenario` | tictactoe/tictactoe.py:73-75 | `Run` on a new game with choice 3 and moves 0, 5, 1: 0 is refused and 5 ends the game in a failed sign lookup, after two moves |
| `TicTacToeGame.InvalidChoiceLosesSign` | tictactoe/tictactoe.py:73-75 | With choice 3 the choice asks for a retry, and the next valid move finds no sign for the current player |
| `TicTacToeGame.TicTacToe.RunRetryingChoice` | tictactoe/tictactoe.py:45-165 | Corrected: answers are read until one is 1 or 2. The assignment is `Choose` of the first valid answer. With one, the result, count and final state are exactly `Play` from `AfterSetup` with that answer, as in `Run`; with none, no move is read. The game never ends in a failed sign lookup |
| `TicTacToeGame.RetryingRunScenario` | tictactoe/tictactoe.py:45-165 | The retrying run on a new game with answers 3, 1 and moves 1, 4, 2, 5, 3 returns a win for "a" after five moves |
| `TicTacToeGame.TicTacToe.AssignedSignResolves` | tictactoe/tictactoe.py:77-81 | Once both signs belong to the two players and one of them has the turn, the sign lookup always finds a sign |
| `TicTacToeGame.ChooseAndSwitchScenario` | tictactoe/test_tictactoe.py:46-51 | After user1 picks X the current sign is X; switching gives user2 with sign O |
| `TicTacToeGame.UpdateBoardFreshGameScenario` | tictactoe/test_tictactoe.py:39-44 | From the test's own setup, a new game with no choice made, the code places O at 5 and lists it under O |
| `TicTacToeGame.UpdateBoardScenario` | tictactoe/test_tictactoe.py:39-44 | With user1 holding X, X placed at 5 on an empty board fills the centre, and the lists are X: [5], O: [] |
| `TicTacToeGame.SwitchTestSetupScenario` | tictactoe/test_tictactoe.py:46-51 | From the test's own setup, with the player names never set, switching gives the name "" and no sign |
| `TicTacToeRegistry.TicTacToeDB.constructor` | tictactoe_db.py:18-20 | The registry starts with both tables empty |
| `TicTacToeRegistry.TicTacToeDB.AddGame` | tictactoe_db.py:24-37 | A fresh game in its initial state is stored under the new id, with info that has no players and the new password. No other entry changes, and the result is (id, password) |
| `TicTacToeRegistry.TicTacToeDB.AddGameAsWritten` | tictactoe_db.py:33-36 | As written: a fresh game in its initial state is stored, then building the info raises TypeError, so no info is stored |
| `TicTacToeRegistry.AddGameAsWrittenScenario` | tictactoe_db.py:33-36 | After an add as written, the game is listed but deleting it with its password gives 404 |
| `TicTacToeRegistry.TicTacToeDB.GetGameInfo` | tictactoe_db.py:39-46 | The info stored for a known id; for an unknown id, nothing (the KeyError) |
| `TicTacToeRegistry.TicTacToeDB.GetGame` | tictactoe_db.py:64-72 | The stored game when the id is live, None otherwise; changes nothing |
| `TicTacToeRegistry.TicTacToeDB.ListGames` | tictactoe_db.py:55-62 | Exactly the ids of the live games, each once |
| `TicTacToeRegistry.TicTacToeDB.DelGame` | tictactoe_db.py:74-90 | An id with no info gives 404 and a wrong password gives 401, both changing nothing. The right password removes the game and no other entry, and succeeds; if the game is already gone it gives 404. The info table is never changed |
| `TicTacToeRegistry.DeleteTwice` | tictactoe_db.py:84-90 | For any live game: a delete with its password succeeds, the lookup then gives None, and a second delete gives 404 |
| `TicTacToeRegistry.DeleteScenario` | tictactoe_db.py:82-90 | A wrong password gives 401 and the game stays retrievable. The right one deletes it, a second delete gives 404, and the info entry remains |

## Left out

- Console I/O is not modelled: `initial_setup`'s prompts and prints (its state change is `SetPlayers`), `player_move_req`, `print_tic_tac_toe`, `main`, and the prints in `run`. User input becomes parameters.
- The `ValueError` retry in `player_choice` is not modelled, because a choice parameter of type `int` cannot be a non-integer.
- `player_move_exe`'s retry loop is not a loop of its own. A rejected move is the outcome `Rejected` with no change, and `Run` reads the next move from its input sequence. A game that runs out of input ends `Unfinished`.
- TicTacToeGame.TicTacToe.UpdateBoard: requires 1 <= move <= 9. Its only caller checks the move first, so Python's negative-index wrap for a move below 1 and the IndexError above 9 are not modelled.
- TicTacToeGame.TicTacToe.CheckWinner: requires that a sign is set. With the empty sign the source raises KeyError; its only caller runs after a successful board update, which sets the sign.
- TicTacToeRegistry.TicTacToeDB.ListGames: the order of the ids is unspecified. Python returns them in insertion order, and a Dafny map has none.
- TicTacToeRegistry.TicTacToeDB.AddGame: requires an id that is in neither table, which stands for the uniqueness of `uuid4`.
- The constructor's `num_player` argument is not modelled, because the code never uses it. The `@dataclass` decorator keeps the hand-written `__init__` but adds a `__repr__`, an `__eq__` over zero declared fields (so any two games compare equal) and a `__hash__` of None. No operation of the engine or the registry uses them, so they are not modelled.
- `add_player` is not modelled. As written it cannot run: `+= 1` on a list raises TypeError, and the game object has no `players` field.
- `asyncio.sleep`, the coroutine machinery and any concurrency are not modelled. Each registry operation is one atomic method.
- `user_db.py` (token generation and password hashing) is not part of this model: its calls are foreign cryptographic code. `web_tictactoe.py` (HTTP routing) is not part of this model either.
- Seat indices, ownership checks, game capacity, initialisation by the owner, a winner list, and rejecting a move from a player whose turn it is not have no code in either core file, so they are not modelled. Board rendering is console output.

## Findings

| source | as written | input that shows it | evidently intended | confidence | as-written member | corrected member |
|---|---|---|---|---|---|---|
| tictactoe_db.py:34-36 | The info record is built from two values, an empty list and the password, but the record has three fields. This raises TypeError after line 33 has already stored the game, so the game has no info and can never be deleted | any call of `add_game`, e.g. id "game-1", password "secret" | the record holds the game id, an empty player list and the password | high; not executed | `TicTacToeRegistry.TicTacToeDB.AddGameAsWritten`, `TicTacToeRegistry.AddGameAsWrittenScenario` | `TicTacToeRegistry.TicTacToeDB.AddGame` |
| tictactoe/tictactoe.py:73-75 | An integer choice other than 1 or 2 prints "Try Again" but returns True out of the retry loop, and `run` (line 151) ignores the flag. The signs stay unassigned, and when player 1's name is not empty the first valid move finds no sign: an empty string is written to the cell and a KeyError follows. When player 1 is named "", the name matches both empty keys, player 1 gets O, and the other player reuses that stale O, so both play O | names "user1" and "user2", choice 3, move 5 | the choice is asked again until it is 1 or 2 | medium; not executed | `TicTacToeGame.TicTacToe.Run`, `TicTacToeGame.IgnoredRetryEndsInSignError`, `TicTacToeGame.InvalidChoiceRunScenario`, `TicTacToeGame.InvalidChoiceLosesSign`, `TicTacToeGame.IgnoredRetryWithEmptyName`, `TicTacToeGame.EmptyNameSharesSignScenario` | `TicTacToeGame.TicTacToe.RunRetryingChoice` |
