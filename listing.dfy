/**
 * The prizes-remaining page (nc_lottery_website.py:175-240): the regular
 * expressions that find a game's id, the prize-tier rows a game block
 * accepts, and `parse_game_section`, which turns one `<table>` into a game
 * or rejects it.
 */
module Listing {
  import opened Wrappers
  import opened Text
  import opened Numbers
  import opened Document
  import opened Games
  import Seqs

  const BASE_URL: string := "https://nclottery.com"
  const SCRATCH_OFF: string := "/scratch-off/"

  /** The first position in `from..to-1` where `at` matches the subject `c`. */
  function FirstHit<C, T>(at: (C, nat) -> Option<T>, c: C, from: nat, to: nat): (r: Option<nat>)
    ensures r.Some? ==> from <= r.value < to && at(c, r.value).Some?
    ensures r.Some? ==> forall j :: from <= j < r.value ==> at(c, j).None?
    ensures r.None? ==> (forall j :: from <= j < to ==> at(c, j).None?)
    decreases (to as int) - (from as int)
  {
    if from >= to then None
    else if at(c, from).Some? then Some(from)
    else FirstHit(at, c, from + 1, to)
  }

  /** The first match is unique: any position that matches with no match before it is the one found. */
  lemma {:induction false} FirstHitIs<C, T>(at: (C, nat) -> Option<T>, c: C, from: nat, to: nat, k: nat)
    requires from <= k < to && at(c, k).Some?
    requires forall j :: from <= j < k ==> at(c, j).None?
    ensures FirstHit(at, c, from, to) == Some(k)
    decreases (to as int) - (from as int)
  {
    if from < k {
      FirstHitIs(at, c, from + 1, to, k);
    }
  }

  // ---- `/scratch-off/(\d+)/` ----

  /** The digits `/scratch-off/(\d+)/` captures when it matches `s` at position `i`. */
  function HrefAt(s: string, i: nat): (r: Option<string>)
    ensures r.Some? ==> IsDigits(r.value)
    ensures r.Some? ==> i + |SCRATCH_OFF| + |r.value| < |s|
    ensures r.Some? ==> s[i..i + |SCRATCH_OFF|] == SCRATCH_OFF
    ensures r.Some? ==> s[i + |SCRATCH_OFF|..i + |SCRATCH_OFF| + |r.value|] == r.value
    ensures r.Some? ==> s[i + |SCRATCH_OFF| + |r.value|] == '/'
  {
    var b := i + |SCRATCH_OFF|;
    if b <= |s| && s[i..b] == SCRATCH_OFF then
      var n := DigitRun(s, b);
      if n > 0 && b + n < |s| && s[b + n] == '/' then Some(s[b..b + n]) else None
    else None
  }

  /** `re.search(r'/scratch-off/(\d+)/', href).group(1)`: the capture at the leftmost match. */
  function HrefGameId(href: string): (r: Option<string>)
    ensures r.Some? ==> IsDigits(r.value)
  {
    match FirstHit(HrefAt, href, 0, |href| + 1)
    case Some(i) => HrefAt(href, i)
    case None => None
  }

  /** The id is the capture at the leftmost position where the pattern matches; None when it matches nowhere. */
  lemma HrefGameIdLeftmost(href: string)
    ensures HrefGameId(href).None? <==> forall i :: 0 <= i <= |href| ==> HrefAt(href, i).None?
    ensures HrefGameId(href).Some? ==>
      exists i :: 0 <= i <= |href| && LeftmostHref(href, i) && HrefAt(href, i) == HrefGameId(href)
  {
    match FirstHit(HrefAt, href, 0, |href| + 1)
    case Some(i) =>
      assert LeftmostHref(href, i);
    case None =>
      assert forall i :: 0 <= i <= |href| ==> HrefAt(href, i).None?;
  }

  /** The pattern matches at `i` and at no earlier position. */
  predicate LeftmostHref(href: string, i: nat) {
    HrefAt(href, i).Some? && forall j :: 0 <= j < i ==> HrefAt(href, j).None?
  }

  // ---- `Game\s*Number:\s*(\d+)` ----

  /** The digits `Game\s*Number:\s*(\d+)` captures when it matches `s` at position `i`. */
  function LabelAt(s: string, i: nat): (r: Option<string>)
    ensures r.Some? ==> IsDigits(r.value)
    ensures r.Some? ==> i + 4 <= |s| && s[i..i + 4] == "Game"
  {
    if i + 4 <= |s| && s[i..i + 4] == "Game" then
      var a := i + 4 + SpaceRun(s, i + 4);
      if a + 7 <= |s| && s[a..a + 7] == "Number:" then
        var b := a + 7 + SpaceRun(s, a + 7);
        var n := DigitRun(s, b);
        if n > 0 then Some(s[b..b + n]) else None
      else None
    else None
  }

  /** `re.search(r'Game\s*Number:\s*(\d+)', text).group(1)`: the capture at the leftmost match. */
  function LabelGameId(text: string): (r: Option<string>)
    ensures r.Some? ==> IsDigits(r.value)
  {
    match FirstHit(LabelAt, text, 0, |text| + 1)
    case Some(i) => LabelAt(text, i)
    case None => None
  }

  /** The id is the capture at the leftmost position where the label matches; None when it matches nowhere. */
  lemma LabelGameIdLeftmost(text: string)
    ensures LabelGameId(text).None? <==> forall i :: 0 <= i <= |text| ==> LabelAt(text, i).None?
    ensures LabelGameId(text).Some? ==>
      exists i :: 0 <= i <= |text| && LeftmostLabel(text, i) && LabelAt(text, i) == LabelGameId(text)
  {
    match FirstHit(LabelAt, text, 0, |text| + 1)
    case Some(i) =>
      assert LeftmostLabel(text, i);
    case None =>
      assert forall i :: 0 <= i <= |text| ==> LabelAt(text, i).None?;
  }

  /** The label pattern matches at `i` and at no earlier position. */
  predicate LeftmostLabel(text: string, i: nat) {
    LabelAt(text, i).Some? && forall j :: 0 <= j < i ==> LabelAt(text, j).None?
  }

  // ---- the game link ----

  /** An anchor whose `href` matches the game pattern, with the id it captures. */
  datatype GameLink = GameLink(link: Link, urlId: string)

  function LinkIdAt(links: seq<Link>, i: nat): Option<string> {
    if i < |links| then HrefGameId(links[i].href) else None
  }

  /** `find('a', href=re.compile(r'/scratch-off/\d+/'))` over a run of anchors: the first game link. */
  function FirstGameLink(links: seq<Link>): (r: Option<GameLink>)
    ensures r.Some? ==> r.value.link in links && HrefGameId(r.value.link.href) == Some(r.value.urlId)
  {
    match FirstHit(LinkIdAt, links, 0, |links|)
    case Some(i) => Some(GameLink(links[i], LinkIdAt(links, i).value))
    case None => None
  }

  /** The link found is the first anchor whose `href` carries a game id; None when no anchor does. */
  lemma FirstGameLinkFirst(links: seq<Link>)
    ensures FirstGameLink(links).None? <==> forall i :: 0 <= i < |links| ==> HrefGameId(links[i].href).None?
    ensures FirstGameLink(links).Some? ==>
      exists i :: 0 <= i < |links| && FirstGameLinkAt(links, i) && FirstGameLink(links).value.link == links[i]
  {
    match FirstHit(LinkIdAt, links, 0, |links|)
    case Some(i) =>
      forall j | 0 <= j < i ensures HrefGameId(links[j].href).None? {
        assert LinkIdAt(links, j).None?;
      }
      assert FirstGameLinkAt(links, i);
    case None =>
      forall i | 0 <= i < |links| ensures HrefGameId(links[i].href).None? {
        assert LinkIdAt(links, i).None?;
      }
  }

  /** Anchor `i` is a game link and no anchor before it is. */
  predicate FirstGameLinkAt(links: seq<Link>, i: nat) {
    i < |links| && HrefGameId(links[i].href).Some?
    && forall j :: 0 <= j < i ==> HrefGameId(links[j].href).None?
  }

  /** A game link among the first anchors is the first game link of any extension of them. */
  lemma FirstGameLinkPrefix(a: seq<Link>, b: seq<Link>)
    requires FirstGameLink(a).Some?
    ensures FirstGameLink(a + b) == FirstGameLink(a)
  {
    var k := FirstHit(LinkIdAt, a, 0, |a|).value;
    assert forall j :: 0 <= j <= k ==> LinkIdAt(a + b, j) == LinkIdAt(a, j) by {
      forall j | 0 <= j <= k ensures LinkIdAt(a + b, j) == LinkIdAt(a, j) {
        assert (a + b)[j] == a[j];
      }
    }
    FirstHitIs(LinkIdAt, a + b, 0, |a + b|, k);
  }

  /** The anchors of a table's rows, in document order. */
  function TableLinks(table: Table): seq<Link> {
    if table == [] then [] else table[0].links + TableLinks(table[1..])
  }

  /** The game id `scrape_active_games` reads from a table: that of its first game link. */
  function TableGameId(table: Table): (r: Option<string>)
    ensures r.None? <==> FirstGameLink(TableLinks(table)).None?
    ensures r.Some? ==> IsDigits(r.value)
  {
    match FirstGameLink(TableLinks(table))
    case Some(gl) => Some(gl.urlId)
    case None => None
  }

  // ---- prize-tier rows ----

  /**
   * The tier a row below the header contributes: it needs four cells, a
   * first cell starting with "$" whose value parses as positive, and a
   * positive total count in cell 2; the remaining count is cell 3.
   */
  predicate AcceptsRow(row: Row) {
    |row.cells| >= 4 && StartsWith(row.cells[0], "$")
    && ParsePrizeValue(row.cells[0]) > 0.0 && ParseNumber(row.cells[2]) > 0
  }

  function RowTier(row: Row): (r: Option<PrizeTier>)
    ensures r.Some? <==> AcceptsRow(row)
    ensures r.Some? ==> r.value.value == ParsePrizeValue(row.cells[0]) && r.value.value > 0.0
    ensures r.Some? ==> r.value.total == ParseNumber(row.cells[2]) && r.value.total > 0
    ensures r.Some? ==> r.value.remaining == ParseNumber(row.cells[3])
  {
    if |row.cells| < 4 || !StartsWith(row.cells[0], "$") then None
    else
      var value := ParsePrizeValue(row.cells[0]);
      if value <= 0.0 then None
      else
        var total := ParseNumber(row.cells[2]);
        var remaining := ParseNumber(row.cells[3]);
        if total > 0 then Some(PrizeTier(value, total, remaining)) else None
  }

  /** The tiers of the accepted rows, in row order. */
  function PrizeTiers(rows: seq<Row>): seq<PrizeTier> {
    Seqs.FilterMap(rows, RowTier)
  }

  /** A tier comes from some accepted row, and every accepted row gives one. */
  lemma PrizeTiersMembers(rows: seq<Row>, t: PrizeTier)
    ensures t in PrizeTiers(rows) <==> exists k :: 0 <= k < |rows| && RowTier(rows[k]) == Some(t)
  {
    Seqs.FilterMapMembers(rows, RowTier, t);
  }

  /** Every collected tier has a positive value and a positive total. */
  lemma PrizeTiersPositive(rows: seq<Row>)
    ensures forall t :: t in PrizeTiers(rows) ==> t.value > 0.0 && t.total > 0
  {
    forall t | t in PrizeTiers(rows) ensures t.value > 0.0 && t.total > 0 {
      PrizeTiersMembers(rows, t);
      var k :| 0 <= k < |rows| && RowTier(rows[k]) == Some(t);
    }
  }

  /** Rows are read in order: the tiers of two runs of rows are the tiers of each, concatenated. */
  lemma PrizeTiersConcat(a: seq<Row>, b: seq<Row>)
    ensures PrizeTiers(a + b) == PrizeTiers(a) + PrizeTiers(b)
  {
    Seqs.FilterMapConcat(a, b, RowTier);
  }

  /** No tiers exactly when no row below the header is accepted. */
  lemma PrizeTiersEmpty(rows: seq<Row>)
    ensures PrizeTiers(rows) == [] <==> forall k :: 0 <= k < |rows| ==> !AcceptsRow(rows[k])
  {
    Seqs.FilterMapEmpty(rows, RowTier);
  }

  // ---- parse_game_section ----

  /**
   * "Reordered" when the header text contains the word, else the empty
   * status. A leaf of GameSection; GameSectionFields states the status of
   * the parsed game.
   */
  function StatusOf(header: string): (s: Status)
    ensures s == Reordered <==> Contains(header, "Reordered")
  {
    if Contains(header, "Reordered") then Reordered else Plain
  }

  /**
   * The game number: the header's "Game Number:" label when present, else
   * the id in the URL. The ids themselves are fixed by the leftmost-match
   * lemmas HrefGameIdLeftmost and LabelGameIdLeftmost.
   */
  function NumberOf(header: string, urlId: string): (n: string)
    ensures LabelGameId(header).Some? ==> n == LabelGameId(header).value
    ensures LabelGameId(header).None? ==> n == urlId
  {
    LabelGameId(header).GetOr(urlId)
  }

  /**
   * `parse_game_section`: a table of at least two rows whose header row holds
   * a game link, and at least one accepted prize row below it, gives a game
   * with no ticket price yet; anything else gives None.
   */
  function GameSection(table: Table): Option<GameData> {
    if |table| < 2 then None
    else
      match FirstGameLink(table[0].links)
      case None => None
      case Some(gl) =>
        var tiers := PrizeTiers(table[1..]);
        if tiers == [] then None
        else
          var header := table[0].text;
          Some(GameData(NumberOf(header, gl.urlId), gl.link.text, 0.0,
                        BASE_URL + gl.link.href, StatusOf(header), tiers))
  }

  /** `parse_game_section` gives a game exactly when the table has a header row with a game link and an accepted prize row below it. */
  lemma GameSectionSome(table: Table)
    ensures GameSection(table).Some? <==>
      |table| >= 2 && FirstGameLink(table[0].links).Some? && HasPrizeRow(table)
  {
    if |table| >= 2 {
      TiersOfPrizeRows(table);
    }
  }

  /** The rows below the header give tiers exactly when one of them is accepted. */
  lemma TiersOfPrizeRows(table: Table)
    requires |table| >= 1
    ensures PrizeTiers(table[1..]) != [] <==> HasPrizeRow(table)
  {
    var rows := table[1..];
    PrizeTiersEmpty(rows);
    if HasPrizeRow(table) {
      var k :| 1 <= k < |table| && AcceptsRow(table[k]);
      assert AcceptsRow(rows[k - 1]);
    }
    if PrizeTiers(rows) != [] {
      var k :| 0 <= k < |rows| && AcceptsRow(rows[k]);
      assert AcceptsRow(table[k + 1]);
    }
  }

  /** Some row below the header is an accepted prize row. */
  predicate HasPrizeRow(table: Table) {
    exists k :: 1 <= k < |table| && AcceptsRow(table[k])
  }

  /**
   * What every field of the game `parse_game_section` gives is. The body is
   * empty because each field is read off GameSection; when a game is given
   * at all is GameSectionSome, and what the tiers are is PrizeTiersMembers.
   */
  lemma GameSectionFields(table: Table)
    requires GameSection(table).Some?
    ensures FirstGameLink(table[0].links).Some?
    ensures
      var g, gl := GameSection(table).value, FirstGameLink(table[0].links).value;
      && g.prizeTiers == PrizeTiers(table[1..]) && g.prizeTiers != []
      && g.ticketPrice == 0.0
      && g.gameName == gl.link.text
      && g.url == BASE_URL + gl.link.href
      && (g.status == Reordered <==> Contains(table[0].text, "Reordered"))
      && g.gameNumber == LabelGameId(table[0].text).GetOr(gl.urlId)
  {
  }

  /** The game's number is a run of digits and each of its tiers has a positive value and total. */
  lemma GameSectionWellFormed(table: Table)
    requires GameSection(table).Some?
    ensures IsDigits(GameSection(table).value.gameNumber)
    ensures forall t :: t in GameSection(table).value.prizeTiers ==> t.value > 0.0 && t.total > 0
  {
    PrizeTiersPositive(table[1..]);
  }

  /** The id the page scan reads from a table is the URL id of the game its header row links to. */
  lemma SectionIdIsTableId(table: Table)
    requires GameSection(table).Some?
    ensures FirstGameLink(table[0].links).Some?
    ensures TableGameId(table) == Some(FirstGameLink(table[0].links).value.urlId)
  {
    assert TableLinks(table) == table[0].links + TableLinks(table[1..]);
    FirstGameLinkPrefix(table[0].links, TableLinks(table[1..]));
  }

  /**
   * `parse_game_section` as the source writes it: the header checks, then a
   * loop over the rows below the header that appends each accepted tier.
   */
  method ParseGameSection(table: Table) returns (r: Option<GameData>)
    ensures r == GameSection(table)
  {
    if |table| < 2 {
      return None;
    }
    var header := table[0];
    var gl := FirstGameLink(header.links);
    if gl.None? {
      return None;
    }
    var number := gl.value.urlId;
    var labelId := LabelGameId(header.text);
    if labelId.Some? {
      number := labelId.value;
    }
    var status := if Contains(header.text, "Reordered") then Reordered else Plain;
    var url := BASE_URL + gl.value.link.href;
    var rows := table[1..];
    var tiers: seq<PrizeTier> := [];
    for i := 0 to |rows|
      invariant tiers == PrizeTiers(rows[..i])
    {
      assert rows[..i + 1][..i] == rows[..i];
      var row := rows[i];
      if |row.cells| >= 4 {
        var valueText := row.cells[0];
        if StartsWith(valueText, "$") {
          var value := ParsePrizeValue(valueText);
          if value > 0.0 {
            var total := ParseNumber(row.cells[2]);
            var remaining := ParseNumber(row.cells[3]);
            if total > 0 {
              tiers := tiers + [PrizeTier(value, total, remaining)];
            }
          }
        }
      }
    }
    assert rows[..|rows|] == rows;
    if tiers == [] {
      return None;
    }
    r := Some(GameData(number, gl.value.link.text, 0.0, url, status, tiers));
  }
}
