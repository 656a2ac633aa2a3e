/**
 * The rules of the record store's three routes (server/routes/gameRoutes.js),
 * with the document collection held as a sequence of records: POST /game
 * validates, trims and appends; GET /history sorts newest first and keeps at
 * most 100; GET /stats counts games and draws and tallies wins per player.
 */
module GameRoutes {

  import opened Wrappers
  import opened GameTypes
  import opened StringTrim
  import opened Sorting

  /** GET /history returns at most this many records. */
  const HistoryLimit: nat := 100

  /**
   * The JSON body of POST /game. A field that is absent is `None`; the date,
   * when present, is already the instant it denotes.
   */
  datatype PostBody = PostBody(playerX: Option<string>, playerO: Option<string>, winner: Option<string>, date: Option<int>)

  /** The three answers of POST /game. */
  datatype PostResponse = Created(game: GameResult) | BadRequest | ServerError {
    /** The HTTP status sent with the answer. */
    function StatusCode(): (code: nat)
      ensures code == 201 <==> Created?
      ensures code == 400 <==> BadRequest?
      ensures code == 500 <==> ServerError?
    {
      match this
      case Created(_) => 201
      case BadRequest => 400
      case ServerError => 500
    }
  }

  /** A string field is truthy in JavaScript exactly when it is present and not empty. */
  predicate Truthy(field: Option<string>) {
    field.Some? && field.value != ""
  }

  /**
   * The schema's `required` and `trim` rules hold of a stored text field: it
   * is not empty and neither starts nor ends with white space, so trimming
   * it again changes nothing (`TrimOfClean`).
   */
  predicate CleanField(s: string) {
    s != "" && !IsWhitespace(s[0]) && !IsWhitespace(s[|s| - 1])
  }

  /** A clean field is its own trim. */
  lemma TrimOfClean(s: string)
    requires CleanField(s)
    ensures Trim(s) == s
  {
  }

  /** All three text fields of a record satisfy the schema. */
  predicate CleanRecord(g: GameResult) {
    CleanField(g.playerX) && CleanField(g.playerO) && CleanField(g.winner)
  }

  /**
   * What POST /game answers for `body` when the clock reads `now`: 400 when a
   * text field is missing or empty; 500 when one is only white space, since
   * it empties under trimming and fails the schema's `required` rule;
   * otherwise 201 with the trimmed record, dated by the body or by `now`.
   */
  function Admit(body: PostBody, now: int): (r: PostResponse)
    ensures r.BadRequest? <==> !Truthy(body.playerX) || !Truthy(body.playerO) || !Truthy(body.winner)
    ensures r.ServerError? <==>
      && Truthy(body.playerX) && Truthy(body.playerO) && Truthy(body.winner)
      && (AllWhitespace(body.playerX.value) || AllWhitespace(body.playerO.value) || AllWhitespace(body.winner.value))
    ensures r.Created? ==>
      && CleanRecord(r.game)
      && r.game.playerX == Trim(body.playerX.value)
      && r.game.playerO == Trim(body.playerO.value)
      && r.game.winner == Trim(body.winner.value)
      && r.game.date == (if body.date.Some? then body.date.value else now)
  {
    if !Truthy(body.playerX) || !Truthy(body.playerO) || !Truthy(body.winner) then
      BadRequest
    else
      var g := GameResult(Trim(body.playerX.value), Trim(body.playerO.value), Trim(body.winner.value),
                          if body.date.Some? then body.date.value else now);
      if g.playerX == "" || g.playerO == "" || g.winner == "" then
        ServerError
      else
        Created(g)
  }

  /** The sort key of GET /history. */
  function DateOf(g: GameResult): int {
    g.date
  }

  /**
   * GET /history: the records newest first, at most `HistoryLimit` of them,
   * and none left out is newer than one kept.
   */
  function History(games: seq<GameResult>): (h: seq<GameResult>)
    ensures |h| == if |games| < HistoryLimit then |games| else HistoryLimit
    ensures multiset(h) <= multiset(games)
    ensures forall i, j :: 0 <= i < j < |h| ==> h[i].date >= h[j].date
    ensures forall g, k :: g in multiset(games) - multiset(h) && 0 <= k < |h| ==> g.date <= h[k].date
  {
    var sorted := SortDesc(games, DateOf);
    var n := if |sorted| < HistoryLimit then |sorted| else HistoryLimit;
    NewestPrefix(games, sorted, n, sorted[..n]);
    sorted[..n]
  }

  /** The facts about a prefix `p` of the date-sorted records that `History` promises. */
  lemma NewestPrefix(games: seq<GameResult>, sorted: seq<GameResult>, n: nat, p: seq<GameResult>)
    requires multiset(sorted) == multiset(games) && SortedDesc(sorted, DateOf)
    requires n <= |sorted| && p == sorted[..n]
    ensures multiset(p) <= multiset(games)
    ensures forall i, j :: 0 <= i < j < |p| ==> p[i].date >= p[j].date
    ensures forall g, k :: g in multiset(games) - multiset(p) && 0 <= k < |p| ==> g.date <= p[k].date
  {
    assert sorted == p + sorted[n..];
    assert multiset(sorted) == multiset(p) + multiset(sorted[n..]);
    forall i, j | 0 <= i < j < |p| ensures p[i].date >= p[j].date {
      assert DateOf(sorted[i]) >= DateOf(sorted[j]);
    }
    PrefixHoldsLargest(sorted, n, DateOf);
    forall g, k | g in multiset(games) - multiset(p) && 0 <= k < |p|
      ensures g.date <= p[k].date
    {
      assert DateOf(g) <= DateOf(sorted[k]);
    }
  }

  /** The number of records whose winner field is exactly `name`. */
  function CountWinner(games: seq<GameResult>, name: string): (n: nat)
    ensures n <= |games|
    ensures n > 0 <==> exists k :: 0 <= k < |games| && games[k].winner == name
  {
    if games == [] then 0
    else
      assert forall k :: 1 <= k < |games| ==> games[k] == games[1..][k - 1];
      (if games[0].winner == name then 1 else 0) + CountWinner(games[1..], name)
  }

  /** The sort key of the statistics' `$sort` stage. */
  function WinsOf(p: PlayerStat): int {
    p.wins
  }

  /** The grouping key of the statistics' `$group` stage. */
  function NameOf(p: PlayerStat): string {
    p.name
  }

  /** The wins recorded for `name` by the first entry that carries it, or 0. */
  function WinsIn(stats: seq<PlayerStat>, name: string): (n: nat)
    ensures n > 0 ==> exists k :: 0 <= k < |stats| && stats[k].name == name
  {
    if stats == [] then 0
    else if stats[0].name == name then stats[0].wins
    else WinsIn(stats[1..], name)
  }

  /** In a tally without duplicate names, `WinsIn` reads an entry's own count. */
  lemma {:induction false} WinsInEntry(stats: seq<PlayerStat>, k: nat)
    requires DistinctBy(stats, NameOf) && k < |stats|
    ensures WinsIn(stats, stats[k].name) == stats[k].wins
  {
    if k > 0 {
      assert NameOf(stats[0]) != NameOf(stats[k]);
      WinsInEntry(stats[1..], k - 1);
    }
  }

  /** Adds one win for `name`: bumps its entry, or appends a new entry with one win. */
  function AddWin(stats: seq<PlayerStat>, name: string): (r: seq<PlayerStat>)
    requires DistinctBy(stats, NameOf)
    ensures DistinctBy(r, NameOf)
    ensures forall e :: e in r ==> (e.name == name && e.wins > 0) || e in stats
    ensures forall n :: WinsIn(r, n) == WinsIn(stats, n) + (if n == name then 1 else 0)
    ensures KeySum(r, WinsOf) == KeySum(stats, WinsOf) + 1
  {
    if stats == [] then
      [PlayerStat(name, 1)]
    else if stats[0].name == name then
      var r := [stats[0].(wins := stats[0].wins + 1)] + stats[1..];
      assert r[1..] == stats[1..];
      assert forall k :: 1 <= k < |r| ==> NameOf(r[k]) == NameOf(stats[k]);
      r
    else
      var rest := AddWin(stats[1..], name);
      var r := [stats[0]] + rest;
      assert r[1..] == rest;
      assert forall k :: 0 <= k < |rest| ==> NameOf(rest[k]) != NameOf(stats[0]) by {
        forall k | 0 <= k < |rest| ensures NameOf(rest[k]) != NameOf(stats[0]) {
          if rest[k].name != name {
            assert rest[k] in stats[1..];
          }
        }
      }
      r
  }

  /**
   * The `$match` and `$group` stages: one entry per winner other than
   * `'Draw'`, holding that winner's record count.
   */
  function Tally(games: seq<GameResult>): (r: seq<PlayerStat>)
    ensures DistinctBy(r, NameOf)
    ensures forall e :: e in r ==> e.name != DrawMarker && e.wins > 0
    ensures forall n :: n != DrawMarker ==> WinsIn(r, n) == CountWinner(games, n)
    ensures KeySum(r, WinsOf) == |games| - CountWinner(games, DrawMarker)
  {
    if games == [] then []
    else
      var rest := Tally(games[1..]);
      if games[0].winner == DrawMarker then rest else AddWin(rest, games[0].winner)
  }

  /** GET /stats: the total, the draws, and the per-player tallies, most wins first. */
  function Stats(games: seq<GameResult>): (s: GameStats)
  {
    GameStats(|games|, CountWinner(games, DrawMarker), SortDesc(Tally(games), WinsOf))
  }

  /**
   * The statistics are exact: the total counts every record and the draws
   * every `'Draw'`; each other winner has exactly one entry, holding its
   * record count, and every entry names a winner (its count is positive); entries are ordered by wins, most first; and the wins add
   * up to the games that were not draws.
   */
  lemma StatsCorrect(games: seq<GameResult>)
    ensures var s := Stats(games);
      && s.totalGames == |games|
      && s.draws == CountWinner(games, DrawMarker)
      && (forall i, j :: 0 <= i < j < |s.playerStats| ==> s.playerStats[i].wins >= s.playerStats[j].wins)
      && (forall i, j :: 0 <= i < j < |s.playerStats| ==> s.playerStats[i].name != s.playerStats[j].name)
      && (forall e :: e in s.playerStats ==> e.name != DrawMarker && e.wins > 0 && e.wins == CountWinner(games, e.name))
      && (forall k :: 0 <= k < |games| && games[k].winner != DrawMarker ==>
            exists e :: e in s.playerStats && e.name == games[k].winner)
      && KeySum(s.playerStats, WinsOf) == s.totalGames - s.draws
  {
    var t := Tally(games);
    var ps := SortDesc(t, WinsOf);
    SortKeepsDistinct(t, WinsOf, NameOf);
    ByWinsAndName(ps);
    EntriesAreExact(games, t, ps);
    EveryWinnerListed(games, t, ps);
  }

  /** The sortedness and distinctness of a tally, read on its fields. */
  lemma ByWinsAndName(ps: seq<PlayerStat>)
    requires SortedDesc(ps, WinsOf) && DistinctBy(ps, NameOf)
    ensures forall i, j :: 0 <= i < j < |ps| ==> ps[i].wins >= ps[j].wins
    ensures forall i, j :: 0 <= i < j < |ps| ==> ps[i].name != ps[j].name
  {
    forall i, j | 0 <= i < j < |ps| ensures ps[i].wins >= ps[j].wins && ps[i].name != ps[j].name {
      assert WinsOf(ps[i]) >= WinsOf(ps[j]);
      assert NameOf(ps[i]) != NameOf(ps[j]);
    }
  }

  /** Every entry of a reordered tally names a winner and holds its record count. */
  lemma EntriesAreExact(games: seq<GameResult>, t: seq<PlayerStat>, ps: seq<PlayerStat>)
    requires t == Tally(games) && multiset(ps) == multiset(t)
    ensures forall e :: e in ps ==> e.name != DrawMarker && e.wins > 0 && e.wins == CountWinner(games, e.name)
  {
    forall e | e in ps ensures e.name != DrawMarker && e.wins > 0 && e.wins == CountWinner(games, e.name) {
      assert e in multiset(t);
      var k :| 0 <= k < |t| && t[k] == e;
      WinsInEntry(t, k);
    }
  }

  /** Every winner other than `'Draw'` has an entry in a reordered tally. */
  lemma EveryWinnerListed(games: seq<GameResult>, t: seq<PlayerStat>, ps: seq<PlayerStat>)
    requires t == Tally(games) && multiset(ps) == multiset(t)
    ensures forall k :: 0 <= k < |games| && games[k].winner != DrawMarker ==>
      exists e :: e in ps && e.name == games[k].winner
  {
    forall k | 0 <= k < |games| && games[k].winner != DrawMarker
      ensures exists e :: e in ps && e.name == games[k].winner
    {
      var w := games[k].winner;
      assert CountWinner(games, w) > 0;
      var j :| 0 <= j < |t| && t[j].name == w;
      assert t[j] in multiset(ps);
    }
  }

  /** Appending a clean record to clean records keeps them all clean. */
  lemma AppendClean(gs: seq<GameResult>, g: GameResult)
    requires forall k :: 0 <= k < |gs| ==> CleanRecord(gs[k])
    requires CleanRecord(g)
    ensures forall k :: 0 <= k < |gs + [g]| ==> CleanRecord((gs + [g])[k])
  {
  }

  /**
   * The store: the collection of saved records and the three route
   * handlers over it. Every stored record satisfies the schema.
   */
  class GameStore {
    var games: seq<GameResult>

    ghost predicate Valid()
      reads this
    {
      forall k :: 0 <= k < |games| ==> CleanRecord(games[k])
    }

    /** An empty collection. */
    constructor ()
      ensures Valid() && games == []
    {
      games := [];
    }

    /**
     * POST /game: appends exactly the admitted record and answers 201, or
     * stores nothing and answers 400 or 500.
     */
    method PostGame(body: PostBody, now: int) returns (response: PostResponse)
      requires Valid()
      modifies this
      ensures Valid()
      ensures response == Admit(body, now)
      ensures games == if response.Created? then old(games) + [response.game] else old(games)
    {
      response := Admit(body, now);
      if response.Created? {
        AppendClean(games, response.game);
        games := games + [response.game];
      }
    }

    /** GET /history; reads the collection and changes nothing. */
    method GetHistory() returns (result: seq<GameResult>)
      ensures result == History(games)
    {
      result := History(games);
    }

    /** GET /stats; reads the collection and changes nothing. */
    method GetStats() returns (result: GameStats)
      ensures result == Stats(games)
    {
      result := Stats(games);
    }
  }
}
