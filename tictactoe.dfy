/**
 * The tic-tac-toe engine: a 3x3 board of cells numbered 1..9 in row-major
 * order, a list of claimed cells per sign, a sign-to-player assignment and
 * the player whose turn it is.  Console input and output are not modelled:
 * player names, sign choices and move numbers are method parameters.
 */
module TicTacToeGame {
  import opened Wrappers

  /** The two signs; the keys of the position and the choice dictionaries. */
  datatype Sign = X | O

  /**
   * The content of one board cell: the blank ' ', a sign, or the empty
   * string that update_board stores when current_sign finds no sign (no key
   * names the current player and no sign was computed before).
   */
  datatype Cell = Blank | Marked(sign: Sign) | Unsigned

  /** What one accepted-or-rejected move of the game loop led to. */
  datatype TurnOutcome = Rejected | SignMissing | Won | Drawn | Continue

  /** How a whole game driven by `run` ended. */
  datatype GameResult = Win(winner: string) | Draw | SignError | Unfinished

  /** The order in which the sign dictionaries are iterated (insertion order). */
  const ChoiceOrder: seq<Sign> := [X, O]

  /** The eight winning triples: three rows, three columns, two diagonals. */
  const WinLines: seq<seq<int>> :=
    [[1, 2, 3], [4, 5, 6], [7, 8, 9], [1, 4, 7], [2, 5, 8], [3, 6, 9], [1, 5, 9], [3, 5, 7]]

  /** Both position lists empty. */
  const NoPositions: map<Sign, seq<int>> := map[X := [], O := []]

  /** A board with all nine cells blank. */
  const EmptyBoard: seq<Cell> := [Blank, Blank, Blank, Blank, Blank, Blank, Blank, Blank, Blank]

  function Opposite(s: Sign): Sign {
    if s == X then O else X
  }

  /** The player who is not `name`, as both switch_turn and player_choice compute it. */
  function Opponent(name: string, player1: string, player2: string): string {
    if name == player1 then player2 else player1
  }

  /**
   * The sign current_sign settles on: the last key of `keys` (in iteration
   * order) whose player is `name`, or `prev` when no key names that player.
   */
  function LastMatch(keys: seq<Sign>, choice: map<Sign, string>, name: string, prev: Option<Sign>): (r: Option<Sign>)
    requires forall k :: k in keys ==> k in choice
    ensures (forall k :: k in keys ==> choice[k] != name) ==> r == prev
    ensures (exists k :: k in keys && choice[k] == name) ==> r.Some? && r.value in keys && choice[r.value] == name
    decreases |keys|
  {
    if keys == [] then prev
    else
      var last := keys[|keys| - 1];
      if choice[last] == name then Some(last)
      else
        assert forall k :: k in keys && k != last ==> k in keys[..|keys| - 1];
        LastMatch(keys[..|keys| - 1], choice, name, prev)
  }

  /** player_move_check: the move names a cell of the board and that cell is blank. */
  predicate MoveAllowed(values: seq<Cell>, move: int)
    requires |values| == 9
  {
    if move < 1 || move > 9 then false
    else values[move - 1] == Blank
  }

  /** check_draw: the two position lists hold nine moves between them. */
  predicate IsDraw(pos: map<Sign, seq<int>>)
    requires X in pos && O in pos
  {
    |pos[X]| + |pos[O]| == 9
  }

  /** Every index of `line` is among the positions `pos`. */
  predicate LineFilled(pos: seq<int>, line: seq<int>) {
    forall y :: y in line ==> y in pos
  }

  /** check_winner's search: some winning triple lies entirely within `pos`. */
  predicate HasLine(pos: seq<int>) {
    exists k :: 0 <= k < |WinLines| && LineFilled(pos, WinLines[k])
  }

  /** The number of cells that are not blank. */
  function CountMarked(values: seq<Cell>): (n: nat)
    ensures n <= |values|
  {
    if values == [] then 0
    else (if values[0] == Blank then 0 else 1) + CountMarked(values[1..])
  }

  /**
   * The agreement between the board and the position lists that valid play
   * keeps: no cell holds the empty string, every listed position is a cell
   * holding that list's sign, every marked cell is listed under its sign,
   * and the lists hold as many moves as there are marked cells.
   */
  ghost predicate BoardAgrees(values: seq<Cell>, pos: map<Sign, seq<int>>) {
    |values| == 9 && (forall s: Sign :: s in pos) &&
    (forall i :: 0 <= i < 9 ==> values[i] != Unsigned) &&
    (forall s, m :: s in pos && m in pos[s] ==> 1 <= m <= 9 && values[m - 1] == Marked(s)) &&
    (forall i :: 0 <= i < 9 && values[i].Marked? ==> i + 1 in pos[values[i].sign]) &&
    |pos[X]| + |pos[O]| == CountMarked(values)
  }

  /** All three cells of `line` hold the sign `s`. */
  ghost predicate LineMarked(values: seq<Cell>, line: seq<int>, s: Sign) {
    forall y :: y in line ==> 1 <= y <= |values| && values[y - 1] == Marked(s)
  }

  predicate RowFilled(pos: seq<int>, r: int) {
    3 * r + 1 in pos && 3 * r + 2 in pos && 3 * r + 3 in pos
  }

  predicate ColumnFilled(pos: seq<int>, c: int) {
    c + 1 in pos && c + 4 in pos && c + 7 in pos
  }

  predicate DiagonalFilled(pos: seq<int>) {
    1 in pos && 5 in pos && 9 in pos
  }

  predicate AntiDiagonalFilled(pos: seq<int>) {
    3 in pos && 5 in pos && 7 in pos
  }

  // ---------------------------------------------------------------------
  // Counting marked cells
  // ---------------------------------------------------------------------

  lemma {:induction false} CountMarkedAllBlank(values: seq<Cell>)
    requires forall i :: 0 <= i < |values| ==> values[i] == Blank
    ensures CountMarked(values) == 0
  {
    if values != [] {
      CountMarkedAllBlank(values[1..]);
    }
  }

  /** Marking one blank cell adds exactly one to the count. */
  lemma {:induction false} CountMarkedUpdate(values: seq<Cell>, i: nat, c: Cell)
    requires i < |values| && values[i] == Blank && c != Blank
    ensures CountMarked(values[i := c]) == CountMarked(values) + 1
  {
    if i == 0 {
      assert values[i := c][1..] == values[1..];
    } else {
      assert values[i := c][1..] == values[1..][i - 1 := c];
      CountMarkedUpdate(values[1..], i - 1, c);
    }
  }

  /** Every cell is marked exactly when the count reaches the board size. */
  lemma {:induction false} CountMarkedFull(values: seq<Cell>)
    ensures CountMarked(values) == |values| <==> forall i :: 0 <= i < |values| ==> values[i] != Blank
  {
    if values != [] {
      CountMarkedFull(values[1..]);
      assert forall i :: 1 <= i < |values| ==> values[i] == values[1..][i - 1];
    }
  }

  // ---------------------------------------------------------------------
  // Properties of moves, draws and wins
  // ---------------------------------------------------------------------

  /** The empty board agrees with two empty position lists. */
  lemma EmptyBoardAgrees()
    ensures BoardAgrees(EmptyBoard, NoPositions)
  {
    CountMarkedAllBlank(EmptyBoard);
    forall s: Sign ensures s in NoPositions {
      assert s == X || s == O;
    }
  }

  /**
   * On an agreeing board a move passes player_move_check exactly when it is
   * in 1..9 and neither player has claimed it yet.
   */
  lemma MoveAllowedIffUnclaimed(values: seq<Cell>, pos: map<Sign, seq<int>>, move: int)
    requires BoardAgrees(values, pos)
    ensures MoveAllowed(values, move) <==> 1 <= move <= 9 && move !in pos[X] && move !in pos[O]
  {
    if 1 <= move <= 9 && !MoveAllowed(values, move) {
      assert values[move - 1].Marked?;
      assert move in pos[values[move - 1].sign];
      assert values[move - 1].sign == X || values[move - 1].sign == O;
    }
  }

  /**
   * A placement that passed player_move_check keeps the board and the
   * position lists in agreement, whichever sign is placed.
   */
  lemma PlaceKeepsAgreement(values: seq<Cell>, pos: map<Sign, seq<int>>, move: int, s: Sign)
    requires BoardAgrees(values, pos) && MoveAllowed(values, move)
    ensures BoardAgrees(values[move - 1 := Marked(s)], pos[s := pos[s] + [move]])
  {
    var values', pos' := values[move - 1 := Marked(s)], pos[s := pos[s] + [move]];
    CountMarkedUpdate(values, move - 1, Marked(s));
    forall t, m | t in pos' && m in pos'[t]
      ensures 1 <= m <= 9 && values'[m - 1] == Marked(t)
    {
      if !(t == s && m == move) {
        assert m in pos[t];
      }
    }
    forall i | 0 <= i < 9 && values'[i].Marked?
      ensures i + 1 in pos'[values'[i].sign]
    {
      if i != move - 1 {
        assert i + 1 in pos[values[i].sign];
      }
    }
    assert |pos'[X]| + |pos'[O]| == |pos[X]| + |pos[O]| + 1;
  }

  /** On an agreeing board every marked cell is listed under its own sign and not the other. */
  lemma MarkedCellListedOnce(values: seq<Cell>, pos: map<Sign, seq<int>>, i: int)
    requires BoardAgrees(values, pos) && 0 <= i < 9 && values[i].Marked?
    ensures i + 1 in pos[values[i].sign] && i + 1 !in pos[Opposite(values[i].sign)]
  {
  }

  /** On an agreeing board check_draw holds exactly when no cell is blank. */
  lemma DrawIffFull(values: seq<Cell>, pos: map<Sign, seq<int>>)
    requires BoardAgrees(values, pos)
    ensures IsDraw(pos) <==> forall i :: 0 <= i < 9 ==> values[i] != Blank
  {
    CountMarkedFull(values);
  }

  /**
   * On an agreeing board the positions of `s` contain a winning triple
   * exactly when the three cells of some winning triple all hold `s`.
   */
  lemma WinIffBoardLine(values: seq<Cell>, pos: map<Sign, seq<int>>, s: Sign)
    requires BoardAgrees(values, pos)
    ensures HasLine(pos[s]) <==> exists k :: 0 <= k < |WinLines| && LineMarked(values, WinLines[k], s)
  {
  }

  /**
   * The eight triples are exactly the three rows, the three columns and the
   * two diagonals of the 3x3 grid numbered row by row from 1.
   */
  lemma HasLineIffGeometric(pos: seq<int>)
    ensures HasLine(pos) <==>
      (exists r :: 0 <= r < 3 && RowFilled(pos, r)) ||
      (exists c :: 0 <= c < 3 && ColumnFilled(pos, c)) ||
      DiagonalFilled(pos) || AntiDiagonalFilled(pos)
  {
    if HasLine(pos) {
      var k :| 0 <= k < |WinLines| && LineFilled(pos, WinLines[k]);
      assert WinLines[k][0] in WinLines[k] && WinLines[k][1] in WinLines[k] && WinLines[k][2] in WinLines[k];
      if k < 3 {
        assert RowFilled(pos, k);
      } else if k < 6 {
        assert ColumnFilled(pos, k - 3);
      }
    }
    if exists r :: 0 <= r < 3 && RowFilled(pos, r) {
      var r :| 0 <= r < 3 && RowFilled(pos, r);
      assert LineFilled(pos, WinLines[r]);
    } else if exists c :: 0 <= c < 3 && ColumnFilled(pos, c) {
      var c :| 0 <= c < 3 && ColumnFilled(pos, c);
      assert LineFilled(pos, WinLines[3 + c]);
    } else if DiagonalFilled(pos) {
      assert LineFilled(pos, WinLines[6]);
    } else if AntiDiagonalFilled(pos) {
      assert LineFilled(pos, WinLines[7]);
    }
  }

  lemma {:induction false} ElementsBound(s: seq<int>)
    ensures |set x | x in s| <= |s|
  {
    if s != [] {
      ElementsBound(s[1..]);
      assert (set x | x in s) == {s[0]} + (set x | x in s[1..]);
    }
  }

  /** A line of three distinct cells cannot lie within fewer than three positions. */
  lemma FilledLineNeedsThree(pos: seq<int>, line: seq<int>)
    requires |line| == 3 && line[0] != line[1] && line[1] != line[2] && line[0] != line[2]
    ensures LineFilled(pos, line) ==> |pos| >= 3
  {
    if LineFilled(pos, line) {
      assert line[0] in line && line[1] in line && line[2] in line;
      assert {line[0], line[1], line[2]} <= set x | x in pos;
      ElementsBound(pos);
    }
  }

  /** Nobody can win with fewer than three positions: every triple has three distinct cells. */
  lemma NoWinBeforeThirdMove(pos: seq<int>)
    requires |pos| < 3
    ensures !HasLine(pos)
  {
    forall k | 0 <= k < |WinLines|
      ensures !LineFilled(pos, WinLines[k])
    {
      FilledLineNeedsThree(pos, WinLines[k]);
    }
  }

  /** The sign current_sign picks, for the two keys in their dictionary order: O wins a tie. */
  lemma CurrentSignByOrder(choice: map<Sign, string>, name: string, prev: Option<Sign>)
    requires X in choice && O in choice
    ensures LastMatch(ChoiceOrder, choice, name, prev) ==
      if choice[O] == name then Some(O) else if choice[X] == name then Some(X) else prev
  {
  }

  /**
   * Under an assignment that gives the two signs to different players, the
   * player holding sign `k` gets `k` back, whatever the previous sign was.
   */
  lemma AssignedPlayerGetsSign(choice: map<Sign, string>, k: Sign, prev: Option<Sign>)
    requires X in choice && O in choice && choice[X] != choice[O]
    ensures LastMatch(ChoiceOrder, choice, choice[k], prev) == Some(k)
  {
  }

  /** Switching turns twice gives the turn back, when the two names differ. */
  lemma OpponentToggles(name: string, player1: string, player2: string)
    requires name == player1 || name == player2
    ensures Opponent(name, player1, player2) == player1 || Opponent(name, player1, player2) == player2
    ensures player1 != player2 ==> Opponent(name, player1, player2) != name
    ensures player1 != player2 ==> Opponent(Opponent(name, player1, player2), player1, player2) == name
  {
  }

  // ---------------------------------------------------------------------
  // The sign choice, one turn and a whole game, on snapshots of the state
  // ---------------------------------------------------------------------

  /** The fields of a game object at one moment. */
  datatype GameState = GameState(
    values: seq<Cell>, playerPos: map<Sign, seq<int>>, playerChoice: map<Sign, string>,
    curPlayerName: string, player1: string, player2: string, curSign: Option<Sign>)

  /** The state the constructor produces. */
  const InitialState: GameState :=
    GameState(EmptyBoard, NoPositions, map[X := "", O := ""], "", "", "", None)

  /** Nine cells, and both signs present as keys of both dictionaries. */
  ghost predicate WellShaped(g: GameState) {
    |g.values| == 9 && X in g.playerPos && O in g.playerPos && X in g.playerChoice && O in g.playerChoice
  }

  /**
   * The assignment player_choice leaves when `cur` answers `choice`: 1 gives
   * X to `cur`, 2 gives O to `cur`, the other sign goes to the other player,
   * and any other answer leaves the assignment as it was.
   */
  function Choose(assign: map<Sign, string>, choice: int, cur: string, player1: string, player2: string): (m: map<Sign, string>)
    ensures m.Keys == assign.Keys + (if choice == 1 || choice == 2 then {X, O} else {})
  {
    if choice == 1 then assign[X := cur][O := Opponent(cur, player1, player2)]
    else if choice == 2 then assign[O := cur][X := Opponent(cur, player1, player2)]
    else assign
  }

  /**
   * After a valid choice between two distinct players, the chooser's sign
   * lookup finds the sign chosen and the other player's finds the other sign;
   * after any other answer nothing is assigned.
   */
  lemma ChosenSignIsFound(assign: map<Sign, string>, choice: int, cur: string, player1: string, player2: string, prev: Option<Sign>)
    requires X in assign && O in assign
    requires (cur == player1 || cur == player2) && player1 != player2
    ensures var m := Choose(assign, choice, cur, player1, player2);
      (choice == 1 ==> LastMatch(ChoiceOrder, m, cur, prev) == Some(X) &&
                       LastMatch(ChoiceOrder, m, Opponent(cur, player1, player2), prev) == Some(O)) &&
      (choice == 2 ==> LastMatch(ChoiceOrder, m, cur, prev) == Some(O) &&
                       LastMatch(ChoiceOrder, m, Opponent(cur, player1, player2), prev) == Some(X)) &&
      (choice != 1 && choice != 2 ==> m == assign)
  {
    var m := Choose(assign, choice, cur, player1, player2);
    if choice == 1 || choice == 2 {
      CurrentSignByOrder(m, cur, prev);
      CurrentSignByOrder(m, Opponent(cur, player1, player2), prev);
    }
  }

  /** initial_setup followed by player_choice, with player 1 answering `choice`. */
  ghost function AfterSetup(g: GameState, name1: string, name2: string, choice: int): (r: GameState)
    requires WellShaped(g)
    ensures WellShaped(r)
  {
    g.(player1 := name1, player2 := name2, curPlayerName := name1,
       playerChoice := Choose(g.playerChoice, choice, name1, name1, name2))
  }

  /** A new game after initial_setup and player_choice, with player 1 answering `choice`. */
  ghost function NewGame(name1: string, name2: string, choice: int): (g: GameState)
    ensures WellShaped(g)
  {
    AfterSetup(InitialState, name1, name2, choice)
  }

  /**
   * One pass of run's loop for one submitted move: a move that fails
   * player_move_check changes nothing; otherwise the cell gets the resolved
   * sign (or '' when none resolves), then a win is tested, then a draw, and
   * only with neither does the turn pass to the other player.
   */
  ghost function Turn(g: GameState, move: int): (r: (TurnOutcome, GameState))
    requires WellShaped(g)
    ensures WellShaped(r.1)
    ensures r.1.playerChoice == g.playerChoice && r.1.player1 == g.player1 && r.1.player2 == g.player2
  {
    if !MoveAllowed(g.values, move) then (Rejected, g)
    else
      var s := LastMatch(ChoiceOrder, g.playerChoice, g.curPlayerName, g.curSign);
      if s.None? then (SignMissing, g.(values := g.values[move - 1 := Unsigned]))
      else
        assert s.value == X || s.value == O;
        var placed := g.(values := g.values[move - 1 := Marked(s.value)],
                         playerPos := g.playerPos[s.value := g.playerPos[s.value] + [move]],
                         curSign := s);
        if HasLine(placed.playerPos[s.value]) then (Won, placed)
        else if IsDraw(placed.playerPos) then (Drawn, placed)
        else
          var next := Opponent(g.curPlayerName, g.player1, g.player2);
          (Continue, placed.(curPlayerName := next, curSign := LastMatch(ChoiceOrder, g.playerChoice, next, s)))
  }

  /**
   * run's loop over the submitted moves, from index `from` on: the result,
   * how many moves have been read, and the final state. The loop stops at the
   * first turn that wins, draws or finds no sign; otherwise it reads every move.
   */
  ghost function Play(g: GameState, moves: seq<int>, from: nat): (r: (GameResult, nat, GameState))
    requires WellShaped(g) && from <= |moves|
    ensures WellShaped(r.2) && from <= r.1 <= |moves|
    ensures r.2.playerChoice == g.playerChoice && r.2.player1 == g.player1 && r.2.player2 == g.player2
    decreases |moves| - from
  {
    if from == |moves| then (Unfinished, from, g)
    else
      var t := Turn(g, moves[from]);
      match t.0
      case Won => (Win(t.1.curPlayerName), from + 1, t.1)
      case Drawn => (Draw, from + 1, t.1)
      case SignMissing => (SignError, from + 1, t.1)
      case _ => Play(t.1, moves, from + 1)
  }

  /**
   * How a game ends: it is unfinished only once every move is read; a win
   * leaves the winner to move with a winning triple under the winner's sign;
   * a draw leaves full lists and no triple under the last mover's sign.
   */
  lemma {:induction false} PlayEnds(g: GameState, moves: seq<int>, from: nat)
    requires WellShaped(g) && from <= |moves|
    ensures var r := Play(g, moves, from);
      (r.0 == Unfinished ==> r.1 == |moves|) &&
      (r.0 != Unfinished ==> r.1 > from) &&
      (r.0.Win? ==> r.2.curSign.Some? && r.2.curSign.value in r.2.playerPos && HasLine(r.2.playerPos[r.2.curSign.value]) && r.0.winner == r.2.curPlayerName) &&
      (r.0 == Draw ==> r.2.curSign.Some? && r.2.curSign.value in r.2.playerPos && !HasLine(r.2.playerPos[r.2.curSign.value]) && IsDraw(r.2.playerPos))
    decreases |moves| - from
  {
    if from < |moves| {
      var t := Turn(g, moves[from]);
      if t.0 in {Rejected, Continue} {
        PlayEnds(t.1, moves, from + 1);
      }
    }
  }

  /**
   * run returns as soon as a turn ends the game: once the moves read so far
   * end it, whatever is submitted afterwards is never read.
   */
  lemma {:induction false} PlayIgnoresLaterMoves(g: GameState, moves: seq<int>, more: seq<int>, from: nat)
    requires WellShaped(g) && from <= |moves| && Play(g, moves, from).0 != Unfinished
    ensures Play(g, moves + more, from) == Play(g, moves, from)
    decreases |moves| - from
  {
    assert (moves + more)[from] == moves[from];
    var t := Turn(g, moves[from]);
    if t.0 in {Rejected, Continue} {
      PlayIgnoresLaterMoves(t.1, moves, more, from + 1);
    }
  }

  /**
   * With the sign lookup failing and the board empty, moves outside 1..9 are
   * refused and the first one inside ends the game in a failed lookup.
   */
  lemma {:induction false} NoSignEndsAtFirstMove(g: GameState, moves: seq<int>, from: nat)
    requires WellShaped(g) && from <= |moves| && g.values == EmptyBoard
    requires LastMatch(ChoiceOrder, g.playerChoice, g.curPlayerName, g.curSign) == None
    ensures Play(g, moves, from).0 in {SignError, Unfinished}
    ensures Play(g, moves, from).0 == SignError <==> exists i :: from <= i < |moves| && 1 <= moves[i] <= 9
    decreases |moves| - from
  {
    if from < |moves| {
      if 1 <= moves[from] <= 9 {
        assert MoveAllowed(g.values, moves[from]);
      } else {
        NoSignEndsAtFirstMove(g, moves, from + 1);
      }
    }
  }

  /**
   * run as written on a new game whose player 1 has a non-empty name: when
   * player 1 answers anything but 1 or 2, the retry is ignored, no key names
   * player 1 and no sign was computed, so the game ends in a failed sign
   * lookup at the first move on the board.
   */
  lemma IgnoredRetryEndsInSignError(name1: string, name2: string, choice: int, moves: seq<int>)
    requires choice != 1 && choice != 2 && name1 != ""
    ensures Play(NewGame(name1, name2, choice), moves, 0).0 in {SignError, Unfinished}
    ensures Play(NewGame(name1, name2, choice), moves, 0).0 == SignError <==>
      exists i :: 0 <= i < |moves| && 1 <= moves[i] <= 9
  {
    var g := NewGame(name1, name2, choice);
    assert g.playerChoice == map[X := "", O := ""];
    CurrentSignByOrder(g.playerChoice, name1, None);
    NoSignEndsAtFirstMove(g, moves, 0);
  }

  /**
   * run as written on a new game whose player 1 is named "": after an answer
   * other than 1 or 2 both keys still hold "", so player 1's lookup matches
   * both and settles on O, and from then on every lookup that matches no key
   * reuses that stale sign. No game ends in a failed sign lookup.
   */
  lemma IgnoredRetryWithEmptyName(name2: string, choice: int, moves: seq<int>)
    requires choice != 1 && choice != 2
    ensures Play(NewGame("", name2, choice), moves, 0).0 != SignError
  {
    var g := NewGame("", name2, choice);
    assert g.playerChoice == map[X := "", O := ""];
    CurrentSignByOrder(g.playerChoice, "", None);
    ResolvedSignNeverFails(g, moves, 0);
  }

  /**
   * The first move of that game: "" places O at 5, and the turn passes to
   * "b", who holds no sign and inherits O.
   */
  lemma EmptyNameSharesSignScenario()
    ensures Turn(NewGame("", "b", 3), 5).0 == Continue
    ensures Turn(NewGame("", "b", 3), 5).1.values == EmptyBoard[4 := Marked(O)]
    ensures Turn(NewGame("", "b", 3), 5).1.curPlayerName == "b"
    ensures Turn(NewGame("", "b", 3), 5).1.curSign == Some(O)
  {
    var g := NewGame("", "b", 3);
    assert g.playerChoice == map[X := "", O := ""];
    CurrentSignByOrder(g.playerChoice, "", None);
    CurrentSignByOrder(g.playerChoice, "b", Some(O));
    NoWinBeforeThirdMove([5]);
    PassingTurn(g, 5, O);
  }

  /** In `g`, current_sign settles on some sign: a key names the player to move, or a sign was computed before. */
  ghost predicate SignResolves(g: GameState)
    requires WellShaped(g)
  {
    LastMatch(ChoiceOrder, g.playerChoice, g.curPlayerName, g.curSign).Some?
  }

  /**
   * The two players hold the two signs between them and one of them is to
   * move: the state a valid answer to player_choice leaves.
   */
  ghost predicate SignsHeld(g: GameState)
    requires WellShaped(g)
  {
    ((g.playerChoice[X] == g.player1 && g.playerChoice[O] == g.player2) ||
     (g.playerChoice[X] == g.player2 && g.playerChoice[O] == g.player1)) &&
    (g.curPlayerName == g.player1 || g.curPlayerName == g.player2)
  }

  /** Held signs resolve, whatever sign was computed before. */
  lemma HeldSignsResolve(g: GameState)
    requires WellShaped(g) && SignsHeld(g)
    ensures SignResolves(g)
  {
    CurrentSignByOrder(g.playerChoice, g.curPlayerName, g.curSign);
  }

  /**
   * While the sign resolves, a turn never fails its lookup, and a turn that
   * hands the move on leaves the sign resolving: the sign it computed stays
   * as the fallback of the next lookup.
   */
  lemma TurnKeepsSignResolving(g: GameState, move: int)
    requires WellShaped(g) && SignResolves(g)
    ensures Turn(g, move).0 != SignMissing
    ensures Turn(g, move).0 in {Rejected, Continue} ==> SignResolves(Turn(g, move).1)
  {
    if MoveAllowed(g.values, move) {
      var s := LastMatch(ChoiceOrder, g.playerChoice, g.curPlayerName, g.curSign);
      var next := Opponent(g.curPlayerName, g.player1, g.player2);
      var nextSign := LastMatch(ChoiceOrder, g.playerChoice, next, s);
      assert nextSign.Some?;
      assert LastMatch(ChoiceOrder, g.playerChoice, next, nextSign).Some?;
    }
  }

  /** From a state whose sign resolves, no game ends in a failed sign lookup, whatever the moves. */
  lemma {:induction false} ResolvedSignNeverFails(g: GameState, moves: seq<int>, from: nat)
    requires WellShaped(g) && SignResolves(g) && from <= |moves|
    ensures Play(g, moves, from).0 != SignError
    decreases |moves| - from
  {
    if from < |moves| {
      TurnKeepsSignResolving(g, moves[from]);
      var t := Turn(g, moves[from]);
      if t.0 in {Rejected, Continue} {
        ResolvedSignNeverFails(t.1, moves, from + 1);
      }
    }
  }

  /** The index of the first answer from `from` on that is 1 or 2, or |choices| when there is none. */
  function FirstValidIndex(choices: seq<int>, from: nat): (i: nat)
    requires from <= |choices|
    ensures from <= i <= |choices|
    ensures i < |choices| ==> choices[i] == 1 || choices[i] == 2
    ensures forall j :: from <= j < i ==> choices[j] != 1 && choices[j] != 2
    decreases |choices| - from
  {
    if from == |choices| || choices[from] == 1 || choices[from] == 2 then from
    else FirstValidIndex(choices, from + 1)
  }

  /** A valid answer hands the two signs to the two players, with player 1 to move. */
  lemma ValidChoiceHoldsSigns(g: GameState, name1: string, name2: string, choice: int)
    requires WellShaped(g) && (choice == 1 || choice == 2)
    ensures SignsHeld(AfterSetup(g, name1, name2, choice))
  {
  }


  /** A turn that neither ends the game nor fails hands the remaining moves on to the next turn. */
  lemma PlayOnward(g: GameState, moves: seq<int>, from: nat)
    requires WellShaped(g) && from < |moves| && Turn(g, moves[from]).0 in {Rejected, Continue}
    ensures Play(g, moves, from) == Play(Turn(g, moves[from]).1, moves, from + 1)
  {
  }

  /** A turn on an open cell with a resolved sign that neither wins nor draws passes the turn on. */
  lemma PassingTurn(g: GameState, move: int, s: Sign)
    requires WellShaped(g) && MoveAllowed(g.values, move)
    requires LastMatch(ChoiceOrder, g.playerChoice, g.curPlayerName, g.curSign) == Some(s)
    requires !HasLine(g.playerPos[s] + [move]) && |g.playerPos[X]| + |g.playerPos[O]| != 8
    ensures Turn(g, move).0 == Continue
    ensures var next := Opponent(g.curPlayerName, g.player1, g.player2);
      Turn(g, move).1 == g.(values := g.values[move - 1 := Marked(s)],
                            playerPos := g.playerPos[s := g.playerPos[s] + [move]],
                            curPlayerName := next, curSign := LastMatch(ChoiceOrder, g.playerChoice, next, Some(s)))
  {
    var pos := g.playerPos[s := g.playerPos[s] + [move]];
    assert |pos[X]| + |pos[O]| == |g.playerPos[X]| + |g.playerPos[O]| + 1 by {
      assert s == X || s == O;
    }
  }

  /**
   * A passing move between two players who hold one sign each: the mover's
   * sign is found whatever sign was computed before, it is placed, and the
   * turn goes to the other player with the other sign.
   */
  lemma AlternatingPass(g: GameState, moves: seq<int>, k: nat, s: Sign)
    requires WellShaped(g) && k < |moves| && MoveAllowed(g.values, moves[k])
    requires g.playerChoice[X] == g.player1 && g.playerChoice[O] == g.player2 && g.player1 != g.player2
    requires g.curPlayerName == g.playerChoice[s]
    requires !HasLine(g.playerPos[s] + [moves[k]]) && |g.playerPos[X]| + |g.playerPos[O]| != 8
    ensures Play(g, moves, k) == Play(Turn(g, moves[k]).1, moves, k + 1)
    ensures var r := Turn(g, moves[k]).1;
      r.values == g.values[moves[k] - 1 := Marked(s)] &&
      r.playerPos[s] == g.playerPos[s] + [moves[k]] && r.playerPos[Opposite(s)] == g.playerPos[Opposite(s)] &&
      r.curPlayerName == g.playerChoice[Opposite(s)] && r.curSign == Some(Opposite(s))
  {
    var next := Opponent(g.curPlayerName, g.player1, g.player2);
    CurrentSignByOrder(g.playerChoice, g.curPlayerName, g.curSign);
    CurrentSignByOrder(g.playerChoice, next, Some(s));
    PassingTurn(g, moves[k], s);
    PlayOnward(g, moves, k);
  }

  /** `g` is a game between `a` (X) and `b` (O) with the given lists, player to move and sign. */
  ghost predicate TopRowStage(g: GameState, a: string, b: string, xs: seq<int>, os: seq<int>, cur: string, sign: Sign) {
    WellShaped(g) && g.playerChoice == map[X := a, O := b] && g.player1 == a && g.player2 == b &&
    g.playerPos[X] == xs && g.playerPos[O] == os && g.curPlayerName == cur && g.curSign == Some(sign)
  }

  /** The first move of the top-row game: `a`, holding X, plays 1. */
  lemma TopRowFirst(a: string, b: string)
    requires a != b
    ensures TopRowStage(Turn(NewGame(a, b, 1), 1).1, a, b, [1], [], b, O)
    ensures Turn(NewGame(a, b, 1), 1).1.values == EmptyBoard[0 := Marked(X)]
    ensures Play(NewGame(a, b, 1), [1, 4, 2, 5, 3], 0) == Play(Turn(NewGame(a, b, 1), 1).1, [1, 4, 2, 5, 3], 1)
  {
    var g0 := NewGame(a, b, 1);
    assert g0.playerChoice[X] == a && g0.playerChoice[O] == b;
    assert !HasLine(g0.playerPos[X] + [1]) by {
      NoWinBeforeThirdMove([1]);
      assert g0.playerPos[X] + [1] == [1];
    }
    AlternatingPass(g0, [1, 4, 2, 5, 3], 0, X);
  }

  /** The second move of the top-row game: `b` plays 4. */
  lemma TopRowSecond(g1: GameState, a: string, b: string)
    requires a != b && TopRowStage(g1, a, b, [1], [], b, O)
    requires g1.values == EmptyBoard[0 := Marked(X)]
    ensures TopRowStage(Turn(g1, 4).1, a, b, [1], [4], a, X)
    ensures Turn(g1, 4).1.values == EmptyBoard[0 := Marked(X)][3 := Marked(O)]
    ensures Play(g1, [1, 4, 2, 5, 3], 1) == Play(Turn(g1, 4).1, [1, 4, 2, 5, 3], 2)
  {
    assert !HasLine(g1.playerPos[O] + [4]) by {
      NoWinBeforeThirdMove([4]);
      assert g1.playerPos[O] + [4] == [4];
    }
    AlternatingPass(g1, [1, 4, 2, 5, 3], 1, O);
  }

  /** The third move of the top-row game: `a` plays 2. */
  lemma TopRowThird(g2: GameState, a: string, b: string)
    requires a != b && TopRowStage(g2, a, b, [1], [4], a, X)
    requires g2.values == EmptyBoard[0 := Marked(X)][3 := Marked(O)]
    ensures TopRowStage(Turn(g2, 2).1, a, b, [1, 2], [4], b, O)
    ensures Turn(g2, 2).1.values == EmptyBoard[0 := Marked(X)][3 := Marked(O)][1 := Marked(X)]
    ensures Play(g2, [1, 4, 2, 5, 3], 2) == Play(Turn(g2, 2).1, [1, 4, 2, 5, 3], 3)
  {
    assert !HasLine(g2.playerPos[X] + [2]) by {
      NoWinBeforeThirdMove([1, 2]);
      assert g2.playerPos[X] + [2] == [1, 2];
    }
    AlternatingPass(g2, [1, 4, 2, 5, 3], 2, X);
  }

  /** The fourth move of the top-row game: `b` plays 5. */
  lemma TopRowFourth(g3: GameState, a: string, b: string)
    requires a != b && TopRowStage(g3, a, b, [1, 2], [4], b, O)
    requires g3.values == EmptyBoard[0 := Marked(X)][3 := Marked(O)][1 := Marked(X)]
    ensures TopRowStage(Turn(g3, 5).1, a, b, [1, 2], [4, 5], a, X)
    ensures Turn(g3, 5).1.values == EmptyBoard[0 := Marked(X)][3 := Marked(O)][1 := Marked(X)][4 := Marked(O)]
    ensures Play(g3, [1, 4, 2, 5, 3], 3) == Play(Turn(g3, 5).1, [1, 4, 2, 5, 3], 4)
  {
    assert !HasLine(g3.playerPos[O] + [5]) by {
      NoWinBeforeThirdMove([4, 5]);
      assert g3.playerPos[O] + [5] == [4, 5];
    }
    AlternatingPass(g3, [1, 4, 2, 5, 3], 3, O);
  }

  /** The fifth move of the top-row game: `a` plays 3 and completes the top row. */
  lemma TopRowFinish(g4: GameState, a: string, b: string)
    requires a != b && TopRowStage(g4, a, b, [1, 2], [4, 5], a, X)
    requires g4.values == EmptyBoard[0 := Marked(X)][3 := Marked(O)][1 := Marked(X)][4 := Marked(O)]
    ensures Play(g4, [1, 4, 2, 5, 3], 4).0 == Win(a) && Play(g4, [1, 4, 2, 5, 3], 4).1 == 5
  {
    CurrentSignByOrder(map[X := a, O := b], a, Some(X));
    assert LineFilled(g4.playerPos[X] + [3], WinLines[0]);
    assert Turn(g4, 3).0 == Won;
  }

  /**
   * A whole game between two players `a` and `b`: `a` takes X and plays 1, 2,
   * 3 while `b` plays 4, 5; the fifth move completes the top row and `a` wins.
   */
  lemma TopRowGameScenario(a: string, b: string)
    requires a != b
    ensures Play(NewGame(a, b, 1), [1, 4, 2, 5, 3], 0).0 == Win(a)
    ensures Play(NewGame(a, b, 1), [1, 4, 2, 5, 3], 0).1 == 5
  {
    TopRowFirst(a, b);
    var g1 := Turn(NewGame(a, b, 1), 1).1;
    TopRowSecond(g1, a, b);
    var g2 := Turn(g1, 4).1;
    TopRowThird(g2, a, b);
    var g3 := Turn(g2, 2).1;
    TopRowFourth(g3, a, b);
    TopRowFinish(Turn(g3, 5).1, a, b);
  }

  // ---------------------------------------------------------------------
  // The game object
  // ---------------------------------------------------------------------

  class TicTacToe {
    /** The nine cells, row by row; cell `m` of the game is `values[m - 1]`. */
    var values: seq<Cell>
    /** The cells claimed by each sign, 1-based, in the order they were played. */
    var playerPos: map<Sign, seq<int>>
    /** The player each sign is assigned to; "" before the choice is made. */
    var playerChoice: map<Sign, string>
    var curPlayerName: string
    var player1: string
    var player2: string
    /** The sign of the current player as last computed; None for the initial "". */
    var curSign: Option<Sign>

    /** The shape of the state: nine cells and both signs present as keys. */
    ghost predicate Valid()
      reads this
    {
      |values| == 9 && (forall s: Sign :: s in playerPos) && (forall s: Sign :: s in playerChoice)
    }

    /** The board invariant valid play preserves. */
    ghost predicate Consistent()
      reads this
    {
      Valid() && BoardAgrees(values, playerPos)
    }

    /** The state the constructor produces. */
    ghost predicate Initial()
      reads this
    {
      values == EmptyBoard && playerPos == NoPositions &&
      playerChoice == map[X := "", O := ""] &&
      curPlayerName == "" && player1 == "" && player2 == "" && curSign == None
    }

    /** The fields as one value. */
    ghost function State(): GameState
      reads this
    {
      GameState(values, playerPos, playerChoice, curPlayerName, player1, player2, curSign)
    }

    /** The sign current_sign would settle on in this state. */
    ghost function ResolvedSign(): Option<Sign>
      reads this
      requires Valid()
    {
      LastMatch(ChoiceOrder, playerChoice, curPlayerName, curSign)
    }

    /** Both signs are given to the two registered players and it is one of them's turn. */
    ghost predicate SignsAssigned()
      reads this
      requires Valid()
    {
      SignsHeld(State())
    }

    constructor ()
      ensures Valid() && Consistent() && Initial()
    {
      values := EmptyBoard;
      playerPos := NoPositions;
      playerChoice := map[X := "", O := ""];
      curPlayerName := "";
      player1 := "";
      player2 := "";
      curSign := None;
      EmptyBoardAgrees();
    }

    /** The state change of initial_setup: both names, and player 1 moves first. */
    method SetPlayers(name1: string, name2: string) returns (cur: string, p1: string, p2: string)
      modifies this`player1, this`player2, this`curPlayerName
      ensures player1 == name1 && player2 == name2 && curPlayerName == name1
      ensures cur == name1 && p1 == name1 && p2 == name2
    {
      player1 := name1;
      player2 := name2;
      curPlayerName := player1;
      cur, p1, p2 := curPlayerName, player1, player2;
    }

    /**
     * The decision part of player_choice: 1 gives X to the current player,
     * 2 gives O to the current player, and the other sign goes to the other
     * player; any other number changes nothing and asks for a retry.
     */
    method PlayerChoice(choice: int) returns (retry: bool)
      requires Valid()
      modifies this`playerChoice
      ensures Valid()
      ensures retry <==> choice != 1 && choice != 2
      ensures choice == 1 ==>
        playerChoice == old(playerChoice)[X := curPlayerName][O := Opponent(curPlayerName, player1, player2)]
      ensures choice == 2 ==>
        playerChoice == old(playerChoice)[O := curPlayerName][X := Opponent(curPlayerName, player1, player2)]
      ensures retry ==> playerChoice == old(playerChoice)
      ensures playerChoice == Choose(old(playerChoice), choice, curPlayerName, player1, player2)
    {
      if choice == 1 {
        playerChoice := playerChoice[X := curPlayerName];
        if curPlayerName == player1 {
          playerChoice := playerChoice[O := player2];
        } else {
          playerChoice := playerChoice[O := player1];
        }
        return false;
      } else if choice == 2 {
        playerChoice := playerChoice[O := curPlayerName];
        if curPlayerName == player1 {
          playerChoice := playerChoice[X := player2];
        } else {
          playerChoice := playerChoice[X := player1];
        }
        return false;
      } else {
        return true;
      }
    }

    /**
     * current_sign: scan the signs in dictionary order and keep the last one
     * assigned to the current player; with no match the sign stays as it was.
     */
    method CurrentSign() returns (s: Option<Sign>)
      requires Valid()
      modifies this`curSign
      ensures curSign == LastMatch(ChoiceOrder, playerChoice, curPlayerName, old(curSign))
      ensures s == curSign
    {
      var i := 0;
      while i < |ChoiceOrder|
        invariant 0 <= i <= |ChoiceOrder|
        invariant curSign == LastMatch(ChoiceOrder[..i], playerChoice, curPlayerName, old(curSign))
      {
        var key := ChoiceOrder[i];
        assert ChoiceOrder[..i + 1][..i] == ChoiceOrder[..i];
        if playerChoice[key] == curPlayerName {
          curSign := Some(key);
        }
        i := i + 1;
      }
      assert ChoiceOrder[..i] == ChoiceOrder;
      s := curSign;
    }

    /** player_move_check on the current board. */
    predicate PlayerMoveCheck(move: int)
      reads this
      requires Valid()
    {
      MoveAllowed(values, move)
    }

    /**
     * update_board: resolve the current sign, write it into cell `move` and
     * append `move` to that sign's list. When no sign resolves, update_board
     * writes '' into the cell and then fails looking up the list (KeyError):
     * `ok` is false and the cell holds Unsigned.
     */
    method UpdateBoard(move: int) returns (ok: bool)
      requires Valid() && 1 <= move <= 9
      modifies this`values, this`playerPos, this`curSign
      ensures Valid()
      ensures curSign == LastMatch(ChoiceOrder, playerChoice, curPlayerName, old(curSign))
      ensures ok <==> curSign.Some?
      ensures ok ==> values == old(values)[move - 1 := Marked(curSign.value)]
      ensures ok ==> playerPos == old(playerPos)[curSign.value := old(playerPos)[curSign.value] + [move]]
      ensures !ok ==> values == old(values)[move - 1 := Unsigned] && playerPos == old(playerPos)
      ensures ok && old(Consistent()) && old(PlayerMoveCheck(move)) ==> Consistent()
    {
      var sign := CurrentSign();
      match sign
      case None =>
        values := values[move - 1 := Unsigned];
        ok := false;
      case Some(s) =>
        if old(Consistent()) && old(PlayerMoveCheck(move)) {
          PlaceKeepsAgreement(values, playerPos, move, s);
        }
        values := values[move - 1 := Marked(s)];
        playerPos := playerPos[s := playerPos[s] + [move]];
        ok := true;
    }

    /**
     * switch_turn: hand the turn to the other player and recompute the sign;
     * returns the new player and sign.
     */
    method SwitchTurn() returns (name: string, sign: Option<Sign>)
      requires Valid()
      modifies this`curPlayerName, this`curSign
      ensures curPlayerName == Opponent(old(curPlayerName), player1, player2)
      ensures curSign == LastMatch(ChoiceOrder, playerChoice, curPlayerName, old(curSign))
      ensures name == curPlayerName && sign == curSign
    {
      if curPlayerName == player1 {
        curPlayerName := player2;
      } else {
        curPlayerName := player1;
      }
      var _ := CurrentSign();
      name, sign := curPlayerName, curSign;
    }

    /** check_draw on the current position lists. */
    predicate CheckDraw()
      reads this
      requires Valid()
    {
      IsDraw(playerPos)
    }

    /** check_winner: the current sign's positions hold a winning triple. */
    predicate CheckWinner()
      reads this
      requires Valid() && curSign.Some?
    {
      HasLine(playerPos[curSign.value])
    }

    /**
     * One pass of run's loop for one submitted move: a move that fails
     * player_move_check is rejected and changes nothing (player_move_exe asks
     * again); otherwise the board is updated, then a win is checked, then a
     * draw, and only when there is neither does the turn switch.
     */
    method PlayTurn(move: int) returns (outcome: TurnOutcome)
      requires Valid()
      modifies this
      ensures Valid()
      ensures player1 == old(player1) && player2 == old(player2) && playerChoice == old(playerChoice)
      ensures outcome == Rejected <==> !old(PlayerMoveCheck(move))
      ensures outcome == Rejected ==>
        values == old(values) && playerPos == old(playerPos) &&
        curPlayerName == old(curPlayerName) && curSign == old(curSign)
      ensures outcome == SignMissing <==> old(PlayerMoveCheck(move)) && old(ResolvedSign()) == None
      ensures outcome == SignMissing ==>
        values == old(values)[move - 1 := Unsigned] && playerPos == old(playerPos) &&
        curPlayerName == old(curPlayerName) && curSign == None
      ensures outcome in {Won, Drawn, Continue} ==>
        old(ResolvedSign()).Some? &&
        var s := old(ResolvedSign()).value;
        values == old(values)[move - 1 := Marked(s)] &&
        playerPos == old(playerPos)[s := old(playerPos)[s] + [move]] &&
        (outcome == Won <==> HasLine(playerPos[s])) &&
        (outcome == Drawn <==> !HasLine(playerPos[s]) && IsDraw(playerPos)) &&
        (outcome == Continue ==>
           curPlayerName == Opponent(old(curPlayerName), player1, player2) &&
           curSign == LastMatch(ChoiceOrder, playerChoice, curPlayerName, Some(s))) &&
        (outcome != Continue ==> curPlayerName == old(curPlayerName) && curSign == Some(s))
      ensures outcome == Won ==> curSign.Some? && CheckWinner()
      ensures outcome == Drawn ==> curSign.Some? && !CheckWinner() && CheckDraw()
      ensures old(Consistent()) && outcome != SignMissing ==> Consistent()
      ensures (outcome, State()) == Turn(old(State()), move)
    {
      if !PlayerMoveCheck(move) {
        return Rejected;
      }
      var ok := UpdateBoard(move);
      if !ok {
        return SignMissing;
      }
      if CheckWinner() {
        return Won;
      }
      if CheckDraw() {
        return Drawn;
      }
      var _, _ := SwitchTurn();
      return Continue;
    }

    /**
     * run, as written: initial_setup and one player_choice whose retry flag
     * is ignored, then turns until a win, a draw, a failed sign lookup or the
     * end of the input. `used` is how many moves were read. The result, the
     * count and the final state are those of Play from the state the choice
     * leaves, so the loop stops at the first turn that ends the game.
     */
    method Run(name1: string, name2: string, choice: int, moves: seq<int>) returns (result: GameResult, used: nat)
      requires Valid()
      modifies this
      ensures Valid() && player1 == name1 && player2 == name2
      ensures playerChoice == Choose(old(playerChoice), choice, name1, name1, name2)
      ensures (result, used, State()) == Play(AfterSetup(old(State()), name1, name2, choice), moves, 0)
      ensures used <= |moves|
      ensures result == Unfinished ==> used == |moves|
      ensures result.Win? ==> curSign.Some? && CheckWinner() && result.winner == curPlayerName
      ensures result == Draw ==> curSign.Some? && !CheckWinner() && CheckDraw()
      ensures old(Consistent()) && result != SignError ==> Consistent()
    {
      var _, _, _ := SetPlayers(name1, name2);
      var _ := PlayerChoice(choice);
      assert State() == AfterSetup(old(State()), name1, name2, choice);
      result, used := PlayMoves(moves);
    }

    /**
     * The move loop of run: one turn per submitted move, until a turn wins,
     * draws or finds no sign, or the input runs out. `used` is how many moves
     * were read; the result, the count and the final state are Play from the
     * state the loop starts in.
     */
    method PlayMoves(moves: seq<int>) returns (result: GameResult, used: nat)
      requires Valid()
      modifies this
      ensures Valid()
      ensures (result, used, State()) == Play(old(State()), moves, 0)
      ensures used <= |moves|
      ensures result == Unfinished ==> used == |moves|
      ensures result.Win? ==> curSign.Some? && CheckWinner() && result.winner == curPlayerName
      ensures result == Draw ==> curSign.Some? && !CheckWinner() && CheckDraw()
      ensures old(Consistent()) && result != SignError ==> Consistent()
    {
      ghost var start := State();
      result, used := Unfinished, 0;
      while used < |moves|
        invariant Valid() && player1 == start.player1 && player2 == start.player2 && playerChoice == start.playerChoice
        invariant used <= |moves|
        invariant old(Consistent()) ==> Consistent()
        invariant Play(start, moves, 0) == Play(State(), moves, used)
        decreases |moves| - used
      {
        ghost var before := State();
        var outcome := PlayTurn(moves[used]);
        used := used + 1;
        match outcome
        case Won => return Win(curPlayerName), used;
        case Drawn => return Draw, used;
        case SignMissing => return SignError, used;
        case Rejected => PlayOnward(before, moves, used - 1);
        case Continue => PlayOnward(before, moves, used - 1);
      }
    }

    /**
     * The retry player_choice's loop evidently intends: answers are read
     * until one is 1 or 2, which then assigns the signs. `retry` stays true
     * only when every answer is invalid, and then nothing is assigned.
     */
    method RetryChoice(choices: seq<int>) returns (retry: bool)
      requires Valid()
      modifies this`playerChoice
      ensures Valid()
      ensures retry <==> FirstValidIndex(choices, 0) == |choices|
      ensures retry ==> playerChoice == old(playerChoice)
      ensures !retry ==>
                playerChoice == Choose(old(playerChoice), choices[FirstValidIndex(choices, 0)], curPlayerName, player1, player2)
    {
      retry := true;
      var c := 0;
      while retry && c < |choices|
        invariant Valid() && c <= |choices|
        invariant retry ==> playerChoice == old(playerChoice) && FirstValidIndex(choices, 0) == FirstValidIndex(choices, c)
        invariant !retry ==>
                    1 <= c && FirstValidIndex(choices, 0) == c - 1 &&
                    playerChoice == Choose(old(playerChoice), choices[c - 1], curPlayerName, player1, player2)
        decreases |choices| - c
      {
        retry := PlayerChoice(choices[c]);
        c := c + 1;
      }
    }

    /**
     * run with the retry the sign choice evidently intends: the first answer
     * that is 1 or 2 fixes the assignment, and from there the game is Play, as
     * in Run; with no valid answer no move is read. Once both signs are
     * assigned every accepted move finds the mover's sign, so no game ends in
     * a failed sign lookup.
     */
    method RunRetryingChoice(name1: string, name2: string, choices: seq<int>, moves: seq<int>)
      returns (result: GameResult, used: nat)
      requires Valid()
      modifies this
      ensures Valid() && player1 == name1 && player2 == name2
      ensures FirstValidIndex(choices, 0) == |choices| ==>
                result == Unfinished && used == 0 && State() == AfterSetup(old(State()), name1, name2, 0)
      ensures FirstValidIndex(choices, 0) < |choices| ==>
                (result, used, State()) ==
                Play(AfterSetup(old(State()), name1, name2, choices[FirstValidIndex(choices, 0)]), moves, 0)
      ensures result != SignError
      ensures used <= |moves|
      ensures result.Win? ==> curSign.Some? && CheckWinner() && result.winner == curPlayerName
      ensures result == Draw ==> curSign.Some? && !CheckWinner() && CheckDraw()
      ensures old(Consistent()) ==> Consistent()
    {
      var _, _, _ := SetPlayers(name1, name2);
      var retry := RetryChoice(choices);
      result, used := Unfinished, 0;
      if retry {
        assert State() == AfterSetup(old(State()), name1, name2, 0);
        return;
      }
      ghost var answer := choices[FirstValidIndex(choices, 0)];
      ghost var start := State();
      assert start == AfterSetup(old(State()), name1, name2, answer);
      ValidChoiceHoldsSigns(old(State()), name1, name2, answer);
      HeldSignsResolve(start);
      ResolvedSignNeverFails(start, moves, 0);
      result, used := PlayMoves(moves);
    }

    /** Once signs are assigned, the current player's sign always resolves. */
    lemma AssignedSignResolves()
      requires Valid() && SignsAssigned()
      ensures ResolvedSign().Some?
    {
      HeldSignsResolve(State());
    }
  }

  // ---------------------------------------------------------------------
  // Scenarios of the unit tests, and the invalid sign choice that run lets through
  // ---------------------------------------------------------------------

  /** Nine moves between the lists is a draw; eight is not. */
  lemma CheckDrawScenario()
    ensures IsDraw(map[X := [2, 3, 4, 5, 9], O := [1, 6, 7, 8]])
    ensures !IsDraw(map[X := [2, 3, 4, 5], O := [1, 6, 7, 8]])
  {
  }

  /** The top row, played in any order, wins; 3, 1, 9 holds no triple. */
  lemma CheckWinScenario()
    ensures HasLine([3, 1, 2])
    ensures !HasLine([3, 1, 9])
  {
    assert LineFilled([3, 1, 2], WinLines[0]);
    NoWinBeforeThirdMove([1, 9]);
    forall k | 0 <= k < |WinLines| ensures !LineFilled([3, 1, 9], WinLines[k]) {
      assert WinLines[k][0] in WinLines[k] && WinLines[k][1] in WinLines[k] && WinLines[k][2] in WinLines[k];
    }
  }

  /**
   * user1 picks X: the current sign is X, and switching the turn hands it to
   * user2, whose sign is O (switch_turn returns the name first, then the sign).
   */
  method ChooseAndSwitchScenario() returns (sign: Option<Sign>, name: string, next: Option<Sign>)
    ensures sign == Some(X) && name == "user2" && next == Some(O)
  {
    var game := new TicTacToe();
    var _, _, _ := game.SetPlayers("user1", "user2");
    var _ := game.PlayerChoice(1);
    assert game.playerChoice[X] == "user1" && game.playerChoice[O] == "user2";
    CurrentSignByOrder(game.playerChoice, "user1", None);
    CurrentSignByOrder(game.playerChoice, "user2", Some(X));
    sign := game.CurrentSign();
    name, next := game.SwitchTurn();
  }

  /**
   * The update test's own setup: on a new game nobody has chosen, so both
   * keys hold "" like the current player, and the later key O is the sign
   * placed at 5.
   */
  method UpdateBoardFreshGameScenario() returns (ok: bool, board: seq<Cell>, pos: map<Sign, seq<int>>)
    ensures ok && board == EmptyBoard[4 := Marked(O)]
    ensures X in pos && O in pos && pos[O] == [5] && pos[X] == []
  {
    var game := new TicTacToe();
    ok := game.UpdateBoard(5);
    CurrentSignByOrder(game.playerChoice, "", None);
    board, pos := game.values, game.playerPos;
  }

  /**
   * The switch test's own setup: the player names are never set, so the
   * turn passes to player 1, "", who holds no sign, and the sign stays unset.
   */
  method SwitchTestSetupScenario() returns (name: string, sign: Option<Sign>)
    ensures name == "" && sign == None
  {
    var game := new TicTacToe();
    game.playerChoice := game.playerChoice[X := "user1"][O := "user2"];
    game.curPlayerName := "user1";
    name, sign := game.SwitchTurn();
    CurrentSignByOrder(game.playerChoice, "", None);
  }

  /** With user1 holding X, X placed at 5 fills the centre and is listed as X's only position. */
  method UpdateBoardScenario() returns (board: seq<Cell>, pos: map<Sign, seq<int>>)
    ensures board == EmptyBoard[4 := Marked(X)]
    ensures pos == map[X := [5], O := []]
  {
    ghost var placed := NoPositions[X := NoPositions[X] + [5]];
    assert placed.Keys == {X, O} && placed[X] == [5] && placed[O] == [];
    assert map[X := [5], O := []].Keys == {X, O};
    assert placed == map[X := [5], O := []];
    var game := new TicTacToe();
    var _, _, _ := game.SetPlayers("user1", "user2");
    var _ := game.PlayerChoice(1);
    CurrentSignByOrder(game.playerChoice, "user1", None);
    var ok := game.UpdateBoard(5);
    board, pos := game.values, game.playerPos;
  }

  /**
   * run on a new game where "a" takes X and completes the top row with the
   * fifth move: "a" wins, and the sixth move submitted is never read.
   */
  method TopRowRunScenario() returns (result: GameResult, used: nat)
    ensures result == Win("a") && used == 5
  {
    var game := new TicTacToe();
    result, used := game.Run("a", "b", 1, [1, 4, 2, 5, 3, 9]);
    TopRowGameScenario("a", "b");
    PlayIgnoresLaterMoves(NewGame("a", "b", 1), [1, 4, 2, 5, 3], [9], 0);
    assert [1, 4, 2, 5, 3] + [9] == [1, 4, 2, 5, 3, 9];
  }

  /**
   * The retrying run on a new game where "a" first answers 3, then 1: the
   * second answer gives "a" X, and "a" completes the top row with the fifth move.
   */
  method RetryingRunScenario() returns (result: GameResult, used: nat)
    ensures result == Win("a") && used == 5
  {
    var game := new TicTacToe();
    assert FirstValidIndex([3, 1], 0) == 1;
    result, used := game.RunRetryingChoice("a", "b", [3, 1], [1, 4, 2, 5, 3]);
    TopRowGameScenario("a", "b");
  }

  /**
   * run on a new game where "user1" answers 3: the retry is ignored and the
   * first move on the board, the second one submitted, ends the game in a
   * failed sign lookup.
   */
  method InvalidChoiceRunScenario() returns (result: GameResult, used: nat)
    ensures result == SignError && used == 2
  {
    var game := new TicTacToe();
    result, used := game.Run("user1", "user2", 3, [0, 5, 1]);
    IgnoredRetryEndsInSignError("user1", "user2", 3, [0, 5, 1]);
  }

  /**
   * The steps run takes with sign choice 3: player_choice asks for a retry,
   * run goes on regardless, and the first valid move finds no sign for
   * "user1", leaving the empty string in the cell.
   */
  method InvalidChoiceLosesSign() returns (retry: bool, outcome: TurnOutcome, cell: Cell)
    ensures retry && outcome == SignMissing && cell == Unsigned
  {
    var game := new TicTacToe();
    var _, _, _ := game.SetPlayers("user1", "user2");
    retry := game.PlayerChoice(3);
    outcome := game.PlayTurn(5);
    cell := game.values[4];
  }
}
