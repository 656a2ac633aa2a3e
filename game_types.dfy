/**
 * The value shapes shared by the game client and the record store
 * (client/src/types/game.ts): the squares of a board, a finished game's
 * record and the statistics answer.
 */
module GameTypes {

  /** The two marks a player can place. */
  datatype Mark = X | O

  /** One cell of the board: `null`, `'X'` or `'O'` in the source. */
  datatype Square = Empty | Taken(mark: Mark)

  /** The sentinel stored in a record's winner field when nobody won. */
  const DrawMarker: string := "Draw"

  /**
   * One finished game. Dates are instants in milliseconds; the store's
   * `_id`, `createdAt` and `updatedAt` are not modelled.
   */
  datatype GameResult = GameResult(playerX: string, playerO: string, winner: string, date: int)

  /** One entry of the per-player statistics; `name` is the source's `_id`. */
  datatype PlayerStat = PlayerStat(name: string, wins: nat)

  /** The answer of the statistics query. */
  datatype GameStats = GameStats(totalGames: nat, draws: nat, playerStats: seq<PlayerStat>)
}
