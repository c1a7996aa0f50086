# NC Lottery scratch-off analyzer: a Dafny model

This project models the analysis pipeline of `nc_lottery_website.py`, the
script that ranks the North Carolina Education Lottery's scratch-off games.
The pipeline has five stages:

1. It reads the games-ending page. Games whose sales have ended but whose
   prizes can still be claimed go into a claims set.
2. It reads the prizes-remaining page. Each `<table>` block becomes a game
   with its prize tiers. The game id comes from the game link in the block,
   and a "Game Number:" label in the header text overrides it.
3. It skips claimed ids and ids it has already processed. It asks each
   remaining game's own page for its ticket price and drops games priced at 0.
4. It computes each game's differential: the remaining percentage of its top
   prize tier minus that of its bottom tier. It ranks the games by
   differential, high to low, with a stable sort.
5. It splits the ranking into a band of tickets priced $10 or more and a
   band below $10. Each band shows its first ten games.

The HTML is reduced to plain data (`document.dfy`):

- A page is a sequence of tables.
- A table is a sequence of rows.
- A row holds:
  - the stripped text of each of its cells;
  - the anchors inside it (each an `href` and its stripped text);
  - its whole text.

The fetches are parameters. A fetched page is `Some(page)` and a failed fetch
is `None`. "Now" is also a parameter. So is the ticket price read from a
game's page: a function `priceOf` from the game's URL to the price, 0 when
no price is found.

Modules, one per file:

- `Text`: Python whitespace, `strip`, `replace(c, '')`, `startswith`, substring `in`.
- `Numbers`: `parse_number` and `parse_prize_value`, plus the round trips over comma-grouped numbers.
- `Dates`: `strptime(…, '%b %d, %Y')` and the date order, plus the format/parse round trip.
- `Claims`: `get_games_in_claims_period`.
- `Games`: `PrizeTier` and `GameData`, covering percentages, top and bottom tiers and the differential.
- `Listing`: the id regexes and `parse_game_section`.
- `Selection`: the loop of `scrape_active_games`.
- `Ranking`: `analyze_and_rank_games` and its stable sort.
- `Report`: the price bands and shown rows of `generate_html`.
- `Analyzer`: the `NCLotteryAnalyzer` class, which ties the stages together.
- `Examples`: concrete scenarios.
- `Seqs`: order-preserving filters.
- `Wrappers`: `Option`.

Mutation is modelled as follows:

- Loops that build a set or a list become methods with loop invariants. Each
  is proved equal to a specification function, and the properties are lemmas
  about that function.
- The analyzer's `games_in_claims` field is the field `gamesInClaims` of the
  class `Analyzer.NCLotteryAnalyzer`.

## Model

| member | source | states |
|---|---|---|
| Numbers.ParseNumber | nc_lottery_website.py:111-116 | the result is 0 whenever `int()` rejects the cleaned text (including text of more than 4300 digits), and never negative for digit text |
| Numbers.ParseNumberOfDigits | nc_lottery_website.py:111-116 | a decimal digit string of at most 4300 digits reads as its decimal value; a longer one reads as 0, because `int()` refuses it |
| Numbers.ParseNumberIgnoresCommas | nc_lottery_website.py:112 | removing commas first changes nothing: every comma is ignored |
| Numbers.ParseNumberIgnoresPadding | nc_lottery_website.py:112 | surrounding whitespace is ignored |
| Numbers.ParseNumberOfGrouped | nc_lottery_website.py:111-116 | round trip: any count below 10^4300 written with thousands commas reads back as itself; a larger one reads as 0 |
| Numbers.ParsePrizeValue | nc_lottery_website.py:104-109 | the result is 0.0 whenever `float()` rejects the cleaned text |
| Numbers.ParsePrizeValueOfGrouped | nc_lottery_website.py:104-109 | round trip: `$` plus a comma-grouped whole amount reads back as that amount |
| Text.StripIgnoresPadding | nc_lottery_website.py:105 | surrounding Python whitespace does not change what `strip()` returns |
| Text.StripSplits | nc_lottery_website.py:105 | `strip()` returns the input minus a whitespace prefix and a whitespace suffix, and its result neither starts nor ends with whitespace |
| Text.StripPadded | nc_lottery_website.py:105 | conversely, text without surrounding whitespace between any whitespace prefix and suffix is exactly what `strip()` returns |
| Dates.ParseDate | nc_lottery_website.py:140-141 | a date that parses is a real calendar date (year 1..9999, day within its month) |
| Dates.ParseFormatDate | nc_lottery_website.py:140-141 | round trip: every valid date written as `Mon DD, YYYY` parses back to itself |
| Claims.ClaimedId | nc_lottery_website.py:133-143 | a row yields its cell-0 id exactly when it has at least five cells, both dates parse and end < now <= claim |
| Claims.ClaimsMembers | nc_lottery_website.py:118-150 | an id is in the claims set iff the page was fetched and some row of some table lists it in its claims period; an unfetched page gives the empty set |
| Claims.ClaimsWindowOrdered | nc_lottery_website.py:143 | a row in its claims period has an end date strictly before its claim deadline |
| Claims.GamesInClaimsPeriod | nc_lottery_website.py:118-150 | the nested loops compute exactly the claims set and its membership characterization |
| Games.PercentRemaining | nc_lottery_website.py:29-33 | 0 for a zero total, otherwise pct × total = remaining × 100 |
| Games.PercentInRange | nc_lottery_website.py:29-33 | consistent counts give a percentage in 0..100 |
| Games.PercentOverHundred | nc_lottery_website.py:29-33 | remaining is not clamped: remaining > total gives more than 100 |
| Games.TopIndex | nc_lottery_website.py:46-49 | the index has the largest value and every earlier tier a strictly smaller one |
| Games.BottomIndex | nc_lottery_website.py:51-54 | the index has the smallest value and every earlier tier a strictly larger one |
| Games.GetTopPrize | nc_lottery_website.py:46-49 | None iff there are no tiers, else the first tier of maximal value |
| Games.GetBottomPrize | nc_lottery_website.py:51-54 | None iff there are no tiers, else the first tier of minimal value |
| Games.TopPrizeIsFirstMaximum | nc_lottery_website.py:46-49 | any tier that is maximal with no maximal tier before it is the top prize (ties go to the first) |
| Games.BottomPrizeIsFirstMinimum | nc_lottery_website.py:51-54 | any tier that is minimal with no minimal tier before it is the bottom prize |
| Games.CalculateDifferential | nc_lottery_website.py:56-67 | (0,0,0) without tiers, else (bottom pct, top pct, top − bottom) |
| Games.DifferentialSign | nc_lottery_website.py:56-67 | the differential is positive iff the top tier has the larger share of its print run left |
| Games.DifferentialInRange | nc_lottery_website.py:56-67 | with consistent counts the differential lies in −100..100 |
| Games.SingleValueNoDifferential | nc_lottery_website.py:46-67 | when all tiers share one value, top = bottom = the first tier and the differential is 0 |
| Listing.HrefGameIdLeftmost | nc_lottery_website.py:189-192 | the URL id is the capture of `/scratch-off/(\d+)/` at its leftmost match, None when it matches nowhere |
| Listing.LabelGameIdLeftmost | nc_lottery_website.py:194-197 | the label id is the capture of `Game\s*Number:\s*(\d+)` at its leftmost match |
| Listing.FirstGameLinkFirst | nc_lottery_website.py:182-184 | the header's game link is the first anchor whose href carries a game id, None when none does |
| Listing.FirstGameLinkPrefix | nc_lottery_website.py:259 | a game link in the first anchors is also the first game link of the whole table |
| Listing.RowTier | nc_lottery_website.py:204-223 | a row gives a tier iff it has ≥ 4 cells, cell 0 starts with `$`, its value is > 0 and the total (cell 2) is > 0; the tier's fields are those parses |
| Listing.PrizeTiersMembers | nc_lottery_website.py:202-223 | a tier is collected iff some accepted row gives it |
| Listing.PrizeTiersConcat | nc_lottery_website.py:203 | tiers keep row order: the tiers of two runs of rows are concatenated |
| Listing.PrizeTiersPositive | nc_lottery_website.py:211-218 | every collected tier has a positive value and a positive total |
| Listing.StatusOf | nc_lottery_website.py:199 | the status is Reordered iff the header text contains "Reordered" |
| Listing.NumberOf | nc_lottery_website.py:192-197 | the label's number when there is one, else the URL id |
| Listing.GameSectionSome | nc_lottery_website.py:177-228 | a block gives a game iff it has ≥ 2 rows, a game link in its header row and an accepted row below |
| Listing.GameSectionFields | nc_lottery_website.py:186-237 | the game's tiers, zero price, name, BASE_URL + href, status and number are as the source assigns them |
| Listing.GameSectionWellFormed | nc_lottery_website.py:189-223 | the game number is a digit string and every tier is positive |
| Listing.SectionIdIsTableId | nc_lottery_website.py:259-268 | the id the page scan reads from a block that parses is its header link's URL id |
| Listing.ParseGameSection | nc_lottery_website.py:175-240 | the loop over rows computes exactly the specified game or None |
| Selection.ScanSpec | nc_lottery_website.py:256-288 | after n blocks the processed set is exactly the ids marked (claimed, or parsed) so far, and the games are exactly the picked ones in block order |
| Selection.PickedGamesMembers | nc_lottery_website.py:278-288 | a kept game is the priced parse of a picked block, and each picked block's game is kept |
| Selection.SelectedGames | nc_lottery_website.py:284-288 | every kept game has a positive price and comes from a picked block |
| Selection.PickedUnique | nc_lottery_website.py:270-281 | no two picked blocks share a URL id |
| Selection.FirstParseDecides | nc_lottery_website.py:280-286 | once a block of an id parses, later blocks of that id are never picked, even when its price was 0 |
| Selection.BlockConsistent | nc_lottery_website.py:259-268 | a block that parses always has a URL id for the scan |
| Selection.SelectActiveGames | nc_lottery_website.py:246-290 | the loop returns [] for an unfetched page and otherwise exactly the scan's games |
| Ranking.EntryOf | nc_lottery_website.py:301-303 | an entry holds its game and the game's differential triple |
| Ranking.SortedByDifferential | nc_lottery_website.py:305 | the ranking is non-increasing in differential |
| Ranking.SortIsPermutation | nc_lottery_website.py:305 | the ranking holds the same entries, each as often |
| Ranking.SortIsStable | nc_lottery_website.py:305 | entries of equal differential keep their input order |
| Ranking.RankGames | nc_lottery_website.py:292-306 | the loop and sort produce the reference ranking, sorted and a permutation |
| Report.BandMembers | nc_lottery_website.py:331-332 | an entry is in the high (low) band iff it is a result with price ≥ 10 (< 10) |
| Report.BandsPartition | nc_lottery_website.py:331-332 | the two bands split the results, as multisets and in length |
| Report.BandsKeepOrder | nc_lottery_website.py:331-332 | each band is a subsequence of the results, and is sorted when the results are |
| Report.ClassOf | nc_lottery_website.py:339 | the class is positive, negative or neutral exactly by the differential's sign |
| Report.ShownCount | nc_lottery_website.py:336 | a band shows min(10, its length) rows |
| Report.GameRowsShow | nc_lottery_website.py:336-340 | row i shows rank i+1, the band's i-th entry, its top prize, its diff class and its reordered flag |
| Report.GameRows | nc_lottery_website.py:334-340 | the loop builds exactly the shown rows |
| Analyzer.ScrapedGameOrigin | nc_lottery_website.py:242-290 | each scraped game is a parsed table's game with positive price, non-empty tiers and an unclaimed URL id |
| Analyzer.ScrapedIdsDistinct | nc_lottery_website.py:256-281 | no two tables contribute a game under the same URL id |
| Analyzer.RankedGamesSpec | nc_lottery_website.py:292-306 | the final ranking is sorted, a permutation of the scraped entries, and stable |
| Analyzer.RankedGamesPriced | nc_lottery_website.py:338 | every ranked game has a positive price and a top prize to show |
| Analyzer.NCLotteryAnalyzer.ScrapeActiveGames | nc_lottery_website.py:242-290 | the claims set is stored in the field and the games are the scan's result |
| Analyzer.NCLotteryAnalyzer.AnalyzeAndRankGames | nc_lottery_website.py:292-306 | the result is the ranking of the scraped games |
| Examples.ClaimedOnJan15 | nc_lottery_website.py:139-143 | ended Jan 01, 2024, claimable until Jan 31, 2024: claimed on Jan 15 |
| Examples.NotClaimedOnFeb01 | nc_lottery_website.py:139-143 | the same row is not claimed on Feb 01 |
| Examples.DifferentialsExample | nc_lottery_website.py:56-67 | game A has differential +50 and game B −60 |
| Examples.RankingExample | nc_lottery_website.py:292-305 | game A (differential +50) ranks before game B (differential -60) |
| Examples.BandsExample | nc_lottery_website.py:331-340 | the $5 game A falls in the low band and the $20 game B in the high band, each shown at rank 1 |
| Examples.ScanExample | nc_lottery_website.py:256-288 | a good block and a block without its game link give exactly one game |
| Examples.OverrideExample | nc_lottery_website.py:194-197 | a "Game Number: 456" label overrides URL id 123 |

## Left out

- Fetching (`fetch_page`): the retries, the session and its headers, `time.sleep` and the network. Fetch results are `Option` parameters.
- BeautifulSoup. Parsing HTML into tables, rows, cells and anchors, and `get_text`, are replaced by the `Document` data. Anchors outside `<tr>` rows and rows of nested tables are not modelled.
- `get_ticket_price_from_game_page`, whose regex and DOM fallback depend on text from BeautifulSoup. It is the parameter `priceOf`.
- `datetime.now()`. "Now" is a parameter (a date and microseconds since midnight).
- The price is set on the game object in place. The model returns an updated copy instead, which is safe because nothing else holds the object.
- Numbers.ParseNumber: `int()` is modelled for an optional sign and ASCII digits only. Underscore separators and non-ASCII digits are not accepted. The 4300-digit limit is CPython's default `int_max_str_digits` (Python 3.11 and later and the 3.7.14/3.8.14/3.9.14/3.10.7 releases); older interpreters accept any length, which the model does not cover.
- Numbers.ParsePrizeValue: `float()` is modelled for an optional sign, ASCII digits and one decimal point. Exponents, `inf`, `nan`, underscores and IEEE rounding are left out, and values are exact reals.
- Dates.ParseDate: `strptime` is modelled for English month abbreviations in any ASCII case and ASCII digits. Locale month names and non-ASCII digits are left out.
- Listing.HrefGameId and Listing.LabelGameId: `\d` is modelled as ASCII digits, although Python's `\d` also matches other Unicode decimal digits.
- Percentages are exact reals, not floats, so rounding is not modelled.
- Ranking.SortByDifferential: this reference insertion sort gives the order the source's stable sort produces. Timsort itself is not modelled.
- `format_price`, `format_prize`, the HTML/CSS template and the "showing 10 of N" text of `generate_html`. These are text rendering; the model keeps the values each row shows.
- `main` (writing the file, printing, exit status) and `log`.
- There is no view of games whose top prize is at least $5000, re-sorted by remaining count. `generate_html` has no such view, so the model follows the code.
- A game without tiers would make `generate_game_rows` raise on `top_prize.value`. The model keeps the top prize as an `Option`, and Analyzer.RankedGamesPriced proves that every ranked game has one.
