/**
 * `NCLotteryAnalyzer` (nc_lottery_website.py:70-306) with its fetches
 * already done: the fetched games-ending page and prizes-remaining page are
 * parameters (None for a failed fetch), as are "now" and the ticket price
 * read from each game's page. The analyzer keeps the claims set of its last
 * scrape in its field `gamesInClaims`, as the source keeps
 * `self.games_in_claims`.
 */
module Analyzer {
  import opened Wrappers
  import opened Document
  import opened Dates
  import opened Games
  import opened Listing
  import opened Claims
  import opened Selection
  import opened Ranking
  import Seqs

  /** The games `scrape_active_games` returns for these fetch results. */
  function ScrapedGames(endingPage: Option<Page>, prizesPage: Option<Page>, now: DateTime, priceOf: string -> real): seq<GameData> {
    match prizesPage
    case None => []
    case Some(tables) => Scan(Blocks(tables), ClaimsOf(endingPage, now), priceOf).games
  }

  /** The list `analyze_and_rank_games` returns for these fetch results. */
  function RankedGames(endingPage: Option<Page>, prizesPage: Option<Page>, now: DateTime, priceOf: string -> real): seq<Ranked> {
    SortByDifferential(Entries(ScrapedGames(endingPage, prizesPage, now, priceOf)))
  }

  /**
   * Where each scraped game comes from: a table of the prizes page that
   * `parse_game_section` accepts, whose URL id is not in the claims set,
   * priced positively from the game's own page.
   */
  lemma ScrapedGameOrigin(endingPage: Option<Page>, prizesPage: Option<Page>, now: DateTime, priceOf: string -> real, g: GameData)
    requires g in ScrapedGames(endingPage, prizesPage, now, priceOf)
    ensures prizesPage.Some?
    ensures g.ticketPrice > 0.0 && g.prizeTiers != []
    ensures exists k :: 0 <= k < |prizesPage.value| && FromTable(prizesPage.value, ClaimsOf(endingPage, now), priceOf, k, g)
  {
    var tables := prizesPage.value;
    var claims := ClaimsOf(endingPage, now);
    var blocks := Blocks(tables);
    SelectedGames(blocks, claims, priceOf, g);
    var k :| 0 <= k < |blocks| && Picked(blocks, claims, priceOf, k) && g == Priced(blocks[k].parsed.value, priceOf);
    BlocksAt(tables, k);
    GameSectionFields(tables[k]);
    assert FromTable(tables, claims, priceOf, k, g);
  }

  /** Game `g` is table `k`'s parsed game with its price filled in, and the table's URL id is unclaimed. */
  predicate FromTable(tables: seq<Table>, claims: set<string>, priceOf: string -> real, k: nat, g: GameData) {
    k < |tables| && GameSection(tables[k]).Some? && g == Priced(GameSection(tables[k]).value, priceOf)
    && TableGameId(tables[k]).Some? && TableGameId(tables[k]).value !in claims
  }

  /** No two tables contribute a game under the same URL id. */
  lemma ScrapedIdsDistinct(tables: seq<Table>, claims: set<string>, priceOf: string -> real, k: nat, m: nat)
    requires Picked(Blocks(tables), claims, priceOf, k) && Picked(Blocks(tables), claims, priceOf, m)
    requires TableGameId(tables[k]) == TableGameId(tables[m])
    ensures k == m
  {
    BlocksAt(tables, k);
    BlocksAt(tables, m);
    PickedUnique(Blocks(tables), claims, priceOf, k, m);
  }

  /**
   * The ranking: every scraped game once, by differential from high to low,
   * equal differentials in scrape order, and every ranked game priced and
   * with a top prize.
   */
  lemma RankedGamesSpec(endingPage: Option<Page>, prizesPage: Option<Page>, now: DateTime, priceOf: string -> real)
    ensures var games := ScrapedGames(endingPage, prizesPage, now, priceOf);
      var results := RankedGames(endingPage, prizesPage, now, priceOf);
      && SortedDesc(results)
      && multiset(results) == multiset(Entries(games))
      && (forall v :: Seqs.Filter(results, HasDifferential(v)) == Seqs.Filter(Entries(games), HasDifferential(v)))
  {
    var games := ScrapedGames(endingPage, prizesPage, now, priceOf);
    SortedByDifferential(Entries(games));
    SortIsPermutation(Entries(games));
    forall v ensures Seqs.Filter(RankedGames(endingPage, prizesPage, now, priceOf), HasDifferential(v)) == Seqs.Filter(Entries(games), HasDifferential(v)) {
      SortIsStable(Entries(games), v);
    }
  }

  /** Every ranked entry is a scraped game with a positive price, so it has a top prize to show. */
  lemma RankedGamesPriced(endingPage: Option<Page>, prizesPage: Option<Page>, now: DateTime, priceOf: string -> real, r: Ranked)
    requires r in RankedGames(endingPage, prizesPage, now, priceOf)
    ensures r.game in ScrapedGames(endingPage, prizesPage, now, priceOf)
    ensures r.game.ticketPrice > 0.0 && GetTopPrize(r.game).Some?
  {
    var games := ScrapedGames(endingPage, prizesPage, now, priceOf);
    SortIsPermutation(Entries(games));
    assert r in multiset(Entries(games));
    var k :| 0 <= k < |Entries(games)| && Entries(games)[k] == r;
    EntriesAt(games, k);
    ScrapedGameOrigin(endingPage, prizesPage, now, priceOf, r.game);
  }

  class NCLotteryAnalyzer {
    var gamesInClaims: set<string>

    constructor()
      ensures gamesInClaims == {}
    {
      gamesInClaims := {};
    }

    /** `scrape_active_games`: compute and keep the claims set, then scan the prizes page. */
    method ScrapeActiveGames(endingPage: Option<Page>, prizesPage: Option<Page>, now: DateTime, priceOf: string -> real)
      returns (games: seq<GameData>)
      modifies this
      ensures gamesInClaims == ClaimsOf(endingPage, now)
      ensures games == ScrapedGames(endingPage, prizesPage, now, priceOf)
    {
      gamesInClaims := GamesInClaimsPeriod(endingPage, now);
      games := SelectActiveGames(prizesPage, gamesInClaims, priceOf);
    }

    /** `analyze_and_rank_games`: scrape, then rank. */
    method AnalyzeAndRankGames(endingPage: Option<Page>, prizesPage: Option<Page>, now: DateTime, priceOf: string -> real)
      returns (results: seq<Ranked>)
      modifies this
      ensures gamesInClaims == ClaimsOf(endingPage, now)
      ensures results == RankedGames(endingPage, prizesPage, now, priceOf)
    {
      var games := ScrapeActiveGames(endingPage, prizesPage, now, priceOf);
      if games == [] {
        return [];
      }
      results := RankGames(games);
    }
  }
}
