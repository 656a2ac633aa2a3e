/**
 * Concrete games that tie the engine to the store: a game won on the
 * diagonal, its record posted and listed.
 */
module Scenarios {

  import opened Wrappers
  import opened GameTypes
  import opened GameEngine
  import opened GameRoutes
  import opened StringTrim
  import opened Sorting

  /** The boards of a game in which X wins on the diagonal 0-4-8. */
  const B1: seq<Square> := EmptyBoard()[0 := Taken(X)]
  const B2: seq<Square> := B1[1 := Taken(O)]
  const B3: seq<Square> := B2[4 := Taken(X)]
  const B4: seq<Square> := B3[2 := Taken(O)]
  const B5: seq<Square> := B4[8 := Taken(X)]

  /** A board on which none of the eight lines is won has no winner. */
  lemma NoWinner(b: seq<Square>)
    requires |b| == 9
    requires !LineWon(b, 0) && !LineWon(b, 1) && !LineWon(b, 2) && !LineWon(b, 3)
    requires !LineWon(b, 4) && !LineWon(b, 5) && !LineWon(b, 6) && !LineWon(b, 7)
    ensures Winner(b) == Empty
  {
    assert WinnerFrom(b, 8) == Empty;
    assert WinnerFrom(b, 7) == Empty;
    assert WinnerFrom(b, 6) == Empty;
    assert WinnerFrom(b, 5) == Empty;
    assert WinnerFrom(b, 4) == Empty;
    assert WinnerFrom(b, 3) == Empty;
    assert WinnerFrom(b, 2) == Empty;
    assert WinnerFrom(b, 1) == Empty;
  }

  /** The first four boards of the diagonal game are still in play. */
  lemma InPlay1()
    ensures !IsOver(B1)
  {
    assert B1[3] == Empty;
    NoWinner(B1);
  }

  lemma InPlay2()
    ensures !IsOver(B2)
  {
    assert B2[3] == Empty;
    NoWinner(B2);
  }

  lemma InPlay3()
    ensures !IsOver(B3)
  {
    assert B3[3] == Empty;
    NoWinner(B3);
  }

  lemma InPlay4()
    ensures !IsOver(B4)
  {
    assert B4[3] == Empty;
    NoWinner(B4);
  }

  /** The fifth board is won by X on the diagonal 0-4-8, the first won line of the scan. */
  lemma WonByX()
    ensures Winner(B5) == Taken(X)
  {
    assert LineWon(B5, 6);
    assert WinnerFrom(B5, 6) == Taken(X);
    assert WinnerFrom(B5, 5) == Taken(X);
    assert WinnerFrom(B5, 4) == Taken(X);
    assert WinnerFrom(B5, 3) == Taken(X);
    assert WinnerFrom(B5, 2) == Taken(X);
    assert WinnerFrom(B5, 1) == Taken(X);
  }

  /** One click on a free cell that does not end the game. */
  method Move(game: Game, i: Cell, now: int, before: seq<Square>, after: seq<Square>)
    requires game.Valid() && !game.gameOver && game.board[..] == before
    requires before[i] == Empty && after == before[i := Taken(MarkOf(game.isXNext))] && !IsOver(after)
    modifies game
    ensures game.Valid() && game.board[..] == after
    ensures game.isXNext == !old(game.isXNext) && !game.gameOver
    ensures game.playerX == old(game.playerX) && game.playerO == old(game.playerO)
  {
    var saved := game.HandleClick(i, now);
  }

  /** X takes 0 and O takes 1: nobody has won and X is to move. */
  method Opening(now: int) returns (game: Game)
    ensures fresh(game) && game.Valid() && game.board[..] == B2
    ensures game.isXNext && !game.gameOver
    ensures game.playerX == "Player 1" && game.playerO == "Player 2"
  {
    InPlay1(); InPlay2();
    game := new Game();
    Move(game, 0, now, EmptyBoard(), B1);
    Move(game, 1, now, B1, B2);
  }

  /** From there X takes 4 and O takes 2. */
  method Middle(game: Game, now: int)
    requires game.Valid() && game.isXNext && !game.gameOver && game.board[..] == B2
    modifies game
    ensures game.Valid() && game.isXNext && !game.gameOver && game.board[..] == B4
    ensures game.playerX == old(game.playerX) && game.playerO == old(game.playerO)
  {
    InPlay3(); InPlay4();
    Move(game, 4, now, B2, B3);
    Move(game, 2, now, B3, B4);
  }

  /**
   * X takes 0, O takes 1, X takes 4, O takes 2 and X completes the diagonal
   * at 8: the last click yields the record naming X's player as winner.
   */
  method PlayDiagonal(now: int) returns (saved: Option<GameResult>)
    ensures saved == Some(GameResult("Player 1", "Player 2", "Player 1", now))
  {
    var game := Opening(now);
    Middle(game, now);
    DiagonalRecord("Player 1", "Player 2", now);
    assert B4[8] == Empty;
    saved := game.HandleClick(8, now);
  }

  /** The record of the fifth board names X's player as winner. */
  lemma DiagonalRecord(playerX: string, playerO: string, now: int)
    ensures B5 == B4[8 := Taken(MarkOf(true))] && IsOver(B5)
    ensures FinishedRecord(B5, playerX, playerO, now) == GameResult(playerX, playerO, playerX, now)
  {
    WonByX();
  }

  /** The default names have no surrounding white space. */
  lemma DefaultNamesTrimmed()
    ensures Trim("Player 1") == "Player 1" && Trim("Player 2") == "Player 2"
  {
    assert !IsWhitespace('P') && !IsWhitespace('1') && !IsWhitespace('2');
  }

  /** A collection of one record lists exactly that record. */
  lemma HistoryOfOne(g: GameResult)
    ensures History([g]) == [g]
  {
    var h := History([g]);
    assert h[0] in multiset([g]);
  }

  /** POST /game admits the record of the diagonal game unchanged. */
  lemma AdmitDiagonalRecord(now: int)
    ensures var g := GameResult("Player 1", "Player 2", "Player 1", now);
      Admit(PostBody(Some(g.playerX), Some(g.playerO), Some(g.winner), Some(g.date)), now) == Created(g)
  {
    DefaultNamesTrimmed();
  }

  /** A record the engine saved is admitted by POST /game and listed first by GET /history. */
  method PostAndList(now: int) returns (response: PostResponse, history: seq<GameResult>)
    ensures response.StatusCode() == 201
    ensures response.game == GameResult("Player 1", "Player 2", "Player 1", now)
    ensures history == [response.game]
  {
    var saved := PlayDiagonal(now);
    var record := saved.value;
    AdmitDiagonalRecord(now);
    HistoryOfOne(record);
    var store := new GameStore();
    response := store.PostGame(PostBody(Some(record.playerX), Some(record.playerO), Some(record.winner), Some(record.date)), now);
    history := store.GetHistory();
  }

  /** Three records saved oldest first are listed newest first. */
  lemma HistoryNewestFirst(g1: GameResult, g2: GameResult, g3: GameResult)
    requires g1.date < g2.date < g3.date
    ensures History([g1, g2, g3]) == [g3, g2, g1]
  {
    SortThree(g1, g2, g3);
  }

  /** Sorting one record. */
  lemma SortOne(g: GameResult)
    ensures SortDesc([g], DateOf) == [g]
  {
    assert [g][1..] == [];
  }

  /** Sorting two records saved oldest first. */
  lemma SortTwo(g1: GameResult, g2: GameResult)
    requires g1.date < g2.date
    ensures SortDesc([g1, g2], DateOf) == [g2, g1]
  {
    SortOne(g2);
    assert [g1, g2][1..] == [g2];
    InsertSmallest(g1, [g2], DateOf);
  }

  /** Sorting three records saved oldest first. */
  lemma SortThree(g1: GameResult, g2: GameResult, g3: GameResult)
    requires g1.date < g2.date < g3.date
    ensures SortDesc([g1, g2, g3], DateOf) == [g3, g2, g1]
  {
    SortTwo(g2, g3);
    assert [g1, g2, g3][1..] == [g2, g3];
    InsertSmallest(g1, [g3, g2], DateOf);
    assert [g3, g2] + [g1] == [g3, g2, g1];
  }

  /** Two wins by Alice, one draw and one win by Bob, saved in that order. */
  lemma StatsOfFourGames(g1: GameResult, g2: GameResult, g3: GameResult, g4: GameResult)
    requires g1.winner == "Alice" && g2.winner == DrawMarker && g3.winner == "Bob" && g4.winner == "Alice"
    ensures Stats([g1, g2, g3, g4]) == GameStats(4, 1, [PlayerStat("Alice", 2), PlayerStat("Bob", 1)])
  {
    TallyOfFour(g1, g2, g3, g4);
    DrawsOfFour(g1, g2, g3, g4);
    var a2, b1 := PlayerStat("Alice", 2), PlayerStat("Bob", 1);
    assert SortDesc([a2, b1], WinsOf) == [a2, b1] by {
      assert [a2, b1][1..] == [b1] && [b1][1..] == [];
    }
  }

  /** Those four games hold one draw. */
  lemma DrawsOfFour(g1: GameResult, g2: GameResult, g3: GameResult, g4: GameResult)
    requires g1.winner == "Alice" && g2.winner == DrawMarker && g3.winner == "Bob" && g4.winner == "Alice"
    ensures CountWinner([g1, g2, g3, g4], DrawMarker) == 1
  {
    assert "Alice"[0] != DrawMarker[0] && "Bob"[0] != DrawMarker[0];
    assert [g1, g2, g3, g4][1..] == [g2, g3, g4] && [g2, g3, g4][1..] == [g3, g4];
    assert [g3, g4][1..] == [g4] && [g4][1..] == [];
  }

  /** The tally of those four games, in the order the fold builds it. */
  lemma TallyOfFour(g1: GameResult, g2: GameResult, g3: GameResult, g4: GameResult)
    requires g1.winner == "Alice" && g2.winner == DrawMarker && g3.winner == "Bob" && g4.winner == "Alice"
    ensures Tally([g1, g2, g3, g4]) == [PlayerStat("Alice", 2), PlayerStat("Bob", 1)]
  {
    TallyOfLastTwo(g3, g4);
    assert Tally([g2, g3, g4]) == Tally([g3, g4]) by {
      assert [g2, g3, g4][1..] == [g3, g4];
    }
    assert [g1, g2, g3, g4][1..] == [g2, g3, g4];
    var a1, b1 := PlayerStat("Alice", 1), PlayerStat("Bob", 1);
    assert [a1, b1][1..] == [b1];
  }

  /** Bob's win and then Alice's: the fold meets Alice first. */
  lemma TallyOfLastTwo(g3: GameResult, g4: GameResult)
    requires g3.winner == "Bob" && g4.winner == "Alice"
    ensures Tally([g3, g4]) == [PlayerStat("Alice", 1), PlayerStat("Bob", 1)]
  {
    var a1 := PlayerStat("Alice", 1);
    assert Tally([g4]) == [a1] by {
      assert [g4][1..] == [];
    }
    assert [g3, g4][1..] == [g4];
    assert "Alice"[0] != "Bob"[0];
    assert [a1][1..] == [];
    assert AddWin([a1], "Bob") == [a1] + AddWin([], "Bob");
  }

  /**
   * The winner field is free text: a win by a player named "Draw" is saved
   * with the draw marker and the statistics count it as a draw.
   */
  lemma WinByPlayerNamedDraw(b: seq<Square>, playerO: string, now: int)
    requires |b| == 9 && Winner(b) == Taken(X)
    ensures var s := Stats([FinishedRecord(b, DrawMarker, playerO, now)]);
      s.draws == 1 && s.playerStats == []
  {
    var g := FinishedRecord(b, DrawMarker, playerO, now);
    assert g.winner == DrawMarker;
    assert [g][1..] == [];
    assert Tally([g]) == [];
  }
}
