/**
 * The claims-period filter (nc_lottery_website.py:118-150): the ids of the
 * games on the games-ending page whose sales have ended but whose prizes can
 * still be claimed. A row counts when it has at least five cells, cells 3
 * and 4 both read as dates, and the end date lies before "now" while "now"
 * lies at or before the claim deadline. "Now" is a parameter.
 */
module Claims {
  import opened Wrappers
  import opened Document
  import opened Dates

  /** The row names a game in its claims period at `now`. */
  predicate InClaimsPeriod(row: Row, now: DateTime) {
    |row.cells| >= 5 && InWindow(ParseDate(row.cells[3]), ParseDate(row.cells[4]), now)
  }

  /** Both dates were read, the end date is before `now` and `now` is at or before the deadline. */
  predicate InWindow(endDate: Option<Date>, claimDate: Option<Date>, now: DateTime) {
    endDate.Some? && claimDate.Some? &&
    Before(Midnight(endDate.value), now) && AtOrBefore(now, Midnight(claimDate.value))
  }

  /**
   * The id a row adds to the claims set, if any. The per-row leaf of
   * ClaimsMembers, which states what the whole set is.
   */
  function ClaimedId(row: Row, now: DateTime): (r: Option<string>)
    ensures r.Some? <==> InClaimsPeriod(row, now)
    ensures r.Some? ==> r.value == row.cells[0]
  {
    if InClaimsPeriod(row, now) then Some(row.cells[0]) else None
  }

  /** The ids that `pick` finds in a run of rows (defined on the last row, as the loop visits them). */
  function Collect<T>(rows: seq<T>, pick: T -> Option<string>): set<string> {
    if rows == [] then {}
    else
      Collect(rows[..|rows| - 1], pick) +
        (match pick(rows[|rows| - 1]) case Some(id) => {id} case None => {})
  }

  /** The ids that `pick` finds in a run of tables. */
  function CollectAll<T>(tables: seq<seq<T>>, pick: T -> Option<string>): set<string> {
    if tables == [] then {}
    else CollectAll(tables[..|tables| - 1], pick) + Collect(tables[|tables| - 1], pick)
  }

  /** The claims set for a fetch result: empty when the page could not be fetched. */
  function ClaimsOf(page: Option<Page>, now: DateTime): set<string> {
    match page
    case None => {}
    case Some(tables) => CollectAll(tables, (row: Row) => ClaimedId(row, now))
  }

  lemma {:induction false} CollectMembers<T>(rows: seq<T>, pick: T -> Option<string>, id: string)
    ensures id in Collect(rows, pick) <==> exists k :: 0 <= k < |rows| && pick(rows[k]) == Some(id)
  {
    if rows != [] {
      var init := rows[..|rows| - 1];
      CollectMembers(init, pick, id);
      if exists k :: 0 <= k < |init| && pick(init[k]) == Some(id) {
        var k :| 0 <= k < |init| && pick(init[k]) == Some(id);
        assert rows[k] == init[k];
      }
      if exists k :: 0 <= k < |rows| && pick(rows[k]) == Some(id) {
        var k :| 0 <= k < |rows| && pick(rows[k]) == Some(id);
        if k < |init| {
          assert init[k] == rows[k];
        }
      }
    }
  }

  lemma {:induction false} CollectAllMembers<T>(tables: seq<seq<T>>, pick: T -> Option<string>, id: string)
    ensures id in CollectAll(tables, pick) <==>
      exists t, k :: 0 <= t < |tables| && 0 <= k < |tables[t]| && pick(tables[t][k]) == Some(id)
  {
    if tables != [] {
      var init := tables[..|tables| - 1];
      var last := tables[|tables| - 1];
      CollectAllMembers(init, pick, id);
      CollectMembers(last, pick, id);
      if exists t, k :: 0 <= t < |init| && 0 <= k < |init[t]| && pick(init[t][k]) == Some(id) {
        var t, k :| 0 <= t < |init| && 0 <= k < |init[t]| && pick(init[t][k]) == Some(id);
        assert tables[t] == init[t];
      }
      if exists k :: 0 <= k < |last| && pick(last[k]) == Some(id) {
        var k :| 0 <= k < |last| && pick(last[k]) == Some(id);
        assert tables[|tables| - 1][k] == last[k];
      }
      if exists t, k :: 0 <= t < |tables| && 0 <= k < |tables[t]| && pick(tables[t][k]) == Some(id) {
        var t, k :| 0 <= t < |tables| && 0 <= k < |tables[t]| && pick(tables[t][k]) == Some(id);
        if t < |init| {
          assert init[t] == tables[t];
        }
      }
    }
  }

  /** One more row adds what `pick` finds in it. */
  lemma CollectStep<T>(rows: seq<T>, k: nat, pick: T -> Option<string>)
    requires k < |rows|
    ensures Collect(rows[..k + 1], pick) ==
      Collect(rows[..k], pick) + (match pick(rows[k]) case Some(id) => {id} case None => {})
  {
    assert rows[..k + 1][..k] == rows[..k];
  }

  /** One more table adds what `pick` finds in its rows. */
  lemma CollectAllStep<T>(tables: seq<seq<T>>, t: nat, pick: T -> Option<string>)
    requires t < |tables|
    ensures CollectAll(tables[..t + 1], pick) == CollectAll(tables[..t], pick) + Collect(tables[t], pick)
  {
    assert tables[..t + 1][..t] == tables[..t];
  }

  /** Some row of some table has `id` in cell 0 and is in its claims period. */
  predicate Listed(tables: Page, now: DateTime, id: string) {
    exists t, k :: 0 <= t < |tables| && 0 <= k < |tables[t]| && InClaimsPeriod(tables[t][k], now) && tables[t][k].cells[0] == id
  }

  /**
   * An id is in the claims set exactly when the page was fetched and some
   * row of some table has that id in cell 0 and is in its claims period.
   */
  lemma ClaimsMembers(page: Option<Page>, now: DateTime, id: string)
    ensures id in ClaimsOf(page, now) <==>
      page.Some? && Listed(page.value, now, id)
  {
    if page.Some? {
      var pick := (row: Row) => ClaimedId(row, now);
      CollectAllMembers(page.value, pick, id);
      assert forall t, k :: 0 <= t < |page.value| && 0 <= k < |page.value[t]| ==>
        (pick(page.value[t][k]) == Some(id) <==> InClaimsPeriod(page.value[t][k], now) && page.value[t][k].cells[0] == id);
    }
  }

  /** A game in its claims period has an end date strictly before its claim deadline. */
  lemma ClaimsWindowOrdered(row: Row, now: DateTime)
    requires InClaimsPeriod(row, now)
    ensures ParseDate(row.cells[3]).Some? && ParseDate(row.cells[4]).Some?
    ensures Before(Midnight(ParseDate(row.cells[3]).value), Midnight(ParseDate(row.cells[4]).value))
  {
    var e, c := ParseDate(row.cells[3]), ParseDate(row.cells[4]);
    BeforeTransitive(Midnight(e.value), now, Midnight(c.value));
  }

  /**
   * `get_games_in_claims_period` with the page already fetched: the nested
   * loops over tables and rows that add each qualifying id to the set.
   */
  method GamesInClaimsPeriod(page: Option<Page>, now: DateTime) returns (claims: set<string>)
    ensures claims == ClaimsOf(page, now)
    ensures forall id :: id in claims <==>
      page.Some? && Listed(page.value, now, id)
  {
    claims := {};
    if page.Some? {
      var tables := page.value;
      var pick := (row: Row) => ClaimedId(row, now);
      for t := 0 to |tables|
        invariant claims == CollectAll(tables[..t], pick)
      {
        var rows := tables[t];
        var found: set<string> := {};
        for k := 0 to |rows|
          invariant found == Collect(rows[..k], pick)
        {
          var row := rows[k];
          CollectStep(rows, k, pick);
          assert pick(row) == ClaimedId(row, now);
          if |row.cells| >= 5 {
            var endDate := ParseDate(row.cells[3]);
            var claimDate := ParseDate(row.cells[4]);
            if endDate.Some? && claimDate.Some? {
              if Before(Midnight(endDate.value), now) && AtOrBefore(now, Midnight(claimDate.value)) {
                found := found + {row.cells[0]};
              }
            }
          }
        }
        assert rows[..|rows|] == rows;
        CollectAllStep(tables, t, pick);
        claims := claims + found;
      }
      assert tables[..|tables|] == tables;
    }
    forall id
      ensures id in claims <==> page.Some? && Listed(page.value, now, id)
    {
      ClaimsMembers(page, now, id);
    }
  }
}
