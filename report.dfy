/**
 * The data of the report page in `generate_html`
 * (nc_lottery_website.py:331-353): the ranked results split into a high
 * price band (ticket price at least $10) and a low one (below $10), each in
 * ranked order, and the rows shown for a band: its first ten entries with
 * their rank, top prize, differential class and reordered badge. The HTML
 * text around these values is not modelled.
 */
module Report {
  import opened Wrappers
  import opened Games
  import opened Ranking
  import Seqs

  const BAND_PRICE: real := 10.0
  const ROW_LIMIT: nat := 10

  function IsHighPrice(): Ranked -> bool {
    (r: Ranked) => r.game.ticketPrice >= BAND_PRICE
  }

  function IsLowPrice(): Ranked -> bool {
    (r: Ranked) => r.game.ticketPrice < BAND_PRICE
  }

  /** `high_price_games`: the results with a ticket price of at least $10, in ranked order. */
  function HighPriceGames(results: seq<Ranked>): seq<Ranked> {
    Seqs.Filter(results, IsHighPrice())
  }

  /** `low_price_games`: the results with a ticket price below $10, in ranked order. */
  function LowPriceGames(results: seq<Ranked>): seq<Ranked> {
    Seqs.Filter(results, IsLowPrice())
  }

  /** An entry is in a band exactly when it is a result whose price falls in that band. */
  lemma BandMembers(results: seq<Ranked>, r: Ranked)
    ensures r in HighPriceGames(results) <==> r in results && r.game.ticketPrice >= BAND_PRICE
    ensures r in LowPriceGames(results) <==> r in results && r.game.ticketPrice < BAND_PRICE
  {
    Seqs.FilterMembers(results, IsHighPrice(), r);
    Seqs.FilterMembers(results, IsLowPrice(), r);
  }

  /** The two bands split the results: together they hold every result exactly as often. */
  lemma BandsPartition(results: seq<Ranked>)
    ensures multiset(HighPriceGames(results)) + multiset(LowPriceGames(results)) == multiset(results)
    ensures |HighPriceGames(results)| + |LowPriceGames(results)| == |results|
  {
    Seqs.FilterSplit(results, IsHighPrice(), IsLowPrice());
  }

  /** `a` can be obtained from `b` by deleting entries: its entries appear in `b` in the same order. */
  predicate Subsequence<T(==)>(a: seq<T>, b: seq<T>)
    decreases |b|
  {
    if a == [] then true
    else if b == [] then false
    else Subsequence(a, b[..|b| - 1]) || (a[|a| - 1] == b[|b| - 1] && Subsequence(a[..|a| - 1], b[..|b| - 1]))
  }

  lemma {:induction false} FilterSubsequence<T>(s: seq<T>, p: T -> bool)
    ensures Subsequence(Seqs.Filter(s, p), s)
  {
    if s != [] {
      var init := s[..|s| - 1];
      FilterSubsequence(init, p);
      var f := Seqs.Filter(s, p);
      assert s[..|s| - 1] == init;
      if p(s[|s| - 1]) {
        assert f == Seqs.Filter(init, p) + [s[|s| - 1]];
        assert f[..|f| - 1] == Seqs.Filter(init, p);
      } else {
        assert f == Seqs.Filter(init, p);
      }
    }
  }

  lemma {:induction false} FilterSortedDesc(s: seq<Ranked>, p: Ranked -> bool)
    requires SortedDesc(s)
    ensures SortedDesc(Seqs.Filter(s, p))
  {
    if s != [] {
      var init, x := s[..|s| - 1], s[|s| - 1];
      assert SortedDesc(init);
      FilterSortedDesc(init, p);
      var f := Seqs.Filter(init, p);
      if p(x) {
        forall k | 0 <= k < |f| ensures f[k].differential >= x.differential {
          Seqs.FilterMembers(init, p, f[k]);
          var m :| 0 <= m < |init| && init[m] == f[k];
        }
      }
    }
  }

  /** Each band keeps the ranked order: it is a subsequence of the results, sorted when they are. */
  lemma BandsKeepOrder(results: seq<Ranked>)
    ensures Subsequence(HighPriceGames(results), results)
    ensures Subsequence(LowPriceGames(results), results)
    ensures SortedDesc(results) ==> SortedDesc(HighPriceGames(results)) && SortedDesc(LowPriceGames(results))
  {
    FilterSubsequence(results, IsHighPrice());
    FilterSubsequence(results, IsLowPrice());
    if SortedDesc(results) {
      FilterSortedDesc(results, IsHighPrice());
      FilterSortedDesc(results, IsLowPrice());
    }
  }

  /** The three values of the differential cell's class. */
  datatype DiffClass = Positive | Negative | Neutral

  function ClassOf(diff: real): (c: DiffClass)
    ensures c == Positive <==> diff > 0.0
    ensures c == Negative <==> diff < 0.0
    ensures c == Neutral <==> diff == 0.0
  {
    if diff > 0.0 then Positive else if diff < 0.0 then Negative else Neutral
  }

  /** The values one row of a band's table shows. */
  datatype RowView = RowView(rank: nat, entry: Ranked, topPrize: Option<PrizeTier>, diffClass: DiffClass, reordered: bool)

  function ViewOf(rank: nat, e: Ranked): RowView {
    RowView(rank, e, GetTopPrize(e.game), ClassOf(e.differential), e.game.status == Reordered)
  }

  /** How many entries of a band are shown: `games[:limit]` with the limit 10. */
  function ShownCount(band: seq<Ranked>): (n: nat)
    ensures n <= |band| && n <= ROW_LIMIT
    ensures n == |band| || n == ROW_LIMIT
  {
    if |band| < ROW_LIMIT then |band| else ROW_LIMIT
  }

  /** The rows for the first `n` entries of a band, ranked from 1. */
  function Views(band: seq<Ranked>, n: nat): (rows: seq<RowView>)
    requires n <= |band|
    ensures |rows| == n
  {
    if n == 0 then [] else Views(band, n - 1) + [ViewOf(n, band[n - 1])]
  }

  lemma {:induction false} ViewsAt(band: seq<Ranked>, n: nat, i: nat)
    requires i < n <= |band|
    ensures Views(band, n)[i] == ViewOf(i + 1, band[i])
  {
    if i < n - 1 {
      ViewsAt(band, n - 1, i);
    }
  }

  /**
   * What the rows of a band show: the band's first ten entries (all of them
   * when fewer), in band order, ranked 1, 2, ..., each with its game's top
   * prize, the sign class of its differential and the reordered flag.
   */
  lemma GameRowsShow(band: seq<Ranked>, i: nat)
    requires i < ShownCount(band)
    ensures var row := Views(band, ShownCount(band))[i];
      && row.rank == i + 1 && row.entry == band[i]
      && row.topPrize == GetTopPrize(band[i].game)
      && (row.diffClass == Positive <==> band[i].differential > 0.0)
      && (row.diffClass == Negative <==> band[i].differential < 0.0)
      && (row.reordered <==> band[i].game.status == Reordered)
  {
    ViewsAt(band, ShownCount(band), i);
  }

  /** `generate_game_rows(games)`: the loop over the first ten entries, numbering them from 1. */
  method GameRows(band: seq<Ranked>) returns (rows: seq<RowView>)
    ensures rows == Views(band, ShownCount(band))
    ensures |rows| == ShownCount(band)
  {
    var shown := band[..ShownCount(band)];
    rows := [];
    var rank := 1;
    for i := 0 to |shown|
      invariant rank == i + 1
      invariant rows == Views(band, i)
    {
      var e := shown[i];
      var diffClass := if e.differential > 0.0 then Positive else if e.differential < 0.0 then Negative else Neutral;
      rows := rows + [RowView(rank, e, GetTopPrize(e.game), diffClass, e.game.status == Reordered)];
      rank := rank + 1;
    }
  }
}
