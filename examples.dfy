/**
 * Concrete scenarios. (1) A claims-window row seen on two different days.
 * (2) Two games ranked and split into price bands. (3) A prizes page with one
 * good game block and one block that lacks its game link. (4) A header
 * whose "Game Number:" label overrides the id in the URL.
 */
module Examples {
  import opened Wrappers
  import opened Text
  import opened Numbers
  import opened Document
  import opened Dates
  import opened Claims
  import opened Games
  import opened Listing
  import opened Selection
  import opened Ranking
  import opened Report
  import Seqs

  // ---- (1) the claims window ----

  lemma Jan01Text()
    ensures FormatDate(Date(2024, 1, 1)) == "Jan 01, 2024"
  {
    YearText();
    assert DigitChar(0) == '0' && DigitChar(1) == '1';
    assert PadDigits(0, 1) == [] + ['0'];
    assert PadDigits(1, 2) == "0" + ['1'];
  }

  lemma Jan31Text()
    ensures FormatDate(Date(2024, 1, 31)) == "Jan 31, 2024"
  {
    YearText();
    assert DigitChar(3) == '3' && DigitChar(1) == '1';
    assert PadDigits(3, 1) == [] + ['3'];
    assert PadDigits(31, 2) == "3" + ['1'];
  }

  lemma YearText()
    ensures PadDigits(2024, 4) == "2024"
  {
    assert DigitChar(2) == '2' && DigitChar(0) == '0' && DigitChar(4) == '4';
    assert PadDigits(2, 1) == [] + ['2'];
    assert PadDigits(20, 2) == "2" + ['0'];
    assert PadDigits(202, 3) == "20" + ['2'];
    assert PadDigits(2024, 4) == "202" + ['4'];
  }

  function ClaimsRow(): Row {
    Row(["1234", "Lucky Sevens", "$5", "Jan 01, 2024", "Jan 31, 2024"], [], "")
  }

  lemma ParseJan01()
    ensures ParseDate("Jan 01, 2024") == Some(Date(2024, 1, 1))
  {
    Jan01Text();
    ParseFormatDate(Date(2024, 1, 1));
  }

  lemma ParseJan31()
    ensures ParseDate("Jan 31, 2024") == Some(Date(2024, 1, 31))
  {
    Jan31Text();
    ParseFormatDate(Date(2024, 1, 31));
  }

  lemma RowDates()
    ensures ParseDate(ClaimsRow().cells[3]) == Some(Date(2024, 1, 1))
    ensures ParseDate(ClaimsRow().cells[4]) == Some(Date(2024, 1, 31))
  {
    ParseJan01();
    ParseJan31();
  }

  /** Sales ended Jan 01, 2024 and prizes can be claimed until Jan 31, 2024: the row is in its claims period on Jan 15. */
  lemma ClaimedOnJan15()
    ensures "1234" in ClaimsOf(Some([[ClaimsRow()]]), DateTime(Date(2024, 1, 15), 0))
  {
    var now := DateTime(Date(2024, 1, 15), 0);
    RowDates();
    assert InWindow(ParseDate(ClaimsRow().cells[3]), ParseDate(ClaimsRow().cells[4]), now);
    assert Listed([[ClaimsRow()]], now, "1234") by {
      assert InClaimsPeriod([[ClaimsRow()]][0][0], now);
    }
    ClaimsMembers(Some([[ClaimsRow()]]), now, "1234");
  }

  /** The same row is past its claims period on Feb 01. */
  lemma NotClaimedOnFeb01()
    ensures "1234" !in ClaimsOf(Some([[ClaimsRow()]]), DateTime(Date(2024, 2, 1), 0))
  {
    var now := DateTime(Date(2024, 2, 1), 0);
    var page := [[ClaimsRow()]];
    RowDates();
    assert !InClaimsPeriod(ClaimsRow(), now);
    assert forall t, k :: 0 <= t < |page| && 0 <= k < |page[t]| ==> page[t][k] == ClaimsRow();
    assert !Listed(page, now, "1234");
    ClaimsMembers(Some(page), now, "1234");
  }

  // ---- (2) ranking and bands ----

  function GameA(): GameData {
    GameData("100", "A", 5.0, "https://nclottery.com/scratch-off/100/", Plain,
             [PrizeTier(100000.0, 100, 80), PrizeTier(5.0, 10000, 3000)])
  }

  function GameB(): GameData {
    GameData("200", "B", 20.0, "https://nclottery.com/scratch-off/200/", Plain,
             [PrizeTier(50000.0, 50, 10), PrizeTier(2.0, 5000, 4000)])
  }

  /** A: top 80%, bottom 30%, differential +50. B: top 20%, bottom 80%, differential -60. */
  lemma DifferentialsExample()
    ensures CalculateDifferential(GameA()) == Differential(30.0, 80.0, 50.0)
    ensures CalculateDifferential(GameB()) == Differential(80.0, 20.0, -60.0)
  {
  }

  /** A ranks before B. */
  lemma RankingExample()
    ensures SortByDifferential(Entries([GameA(), GameB()])) == [EntryOf(GameA()), EntryOf(GameB())]
  {
    DifferentialsExample();
    var a, b := EntryOf(GameA()), EntryOf(GameB());
    assert Entries([GameA(), GameB()]) == [a, b] by {
      assert [GameA(), GameB()][..1] == [GameA()];
    }
    assert SortByDifferential([a]) == [a];
    assert [a, b][..1] == [a];
    assert Insert(b, [a]) == [a] + Insert(b, []);
  }

  /** The low band shows A at rank 1 and the high band shows B at rank 1. */
  lemma BandsExample()
    ensures LowPriceGames([EntryOf(GameA()), EntryOf(GameB())]) == [EntryOf(GameA())]
    ensures HighPriceGames([EntryOf(GameA()), EntryOf(GameB())]) == [EntryOf(GameB())]
    ensures Views([EntryOf(GameA())], ShownCount([EntryOf(GameA())])) == [ViewOf(1, EntryOf(GameA()))]
    ensures Views([EntryOf(GameB())], ShownCount([EntryOf(GameB())])) == [ViewOf(1, EntryOf(GameB()))]
  {
    var a, b := EntryOf(GameA()), EntryOf(GameB());
    assert a.game.ticketPrice == 5.0 && b.game.ticketPrice == 20.0;
    assert [a, b] == [a] + [b];
    assert Seqs.Filter([a], IsLowPrice()) == [a];
    assert Seqs.Filter([a], IsHighPrice()) == [];
  }

  // ---- (3) one good block, one block without its game link ----

  const HREF: string := "/scratch-off/123/"

  function GoodBlock(): Table {
    [Row([], [Link(HREF, "Lucky Sevens")], ""),
     TIER_ROW]
  }

  function LinklessBlock(): Table {
    [Row([], [], "Lucky Sevens"),
     TIER_ROW]
  }

  lemma HrefExample()
    ensures HrefGameId(HREF) == Some("123")
  {
    assert |SCRATCH_OFF| == 13 && |HREF| == 17;
    assert HREF[0..13] == SCRATCH_OFF;
    assert HREF[16] == '/' && HREF[13..16] == "123";
    assert DigitRun(HREF, 16) == 0;
    assert DigitRun(HREF, 15) == 1;
    assert DigitRun(HREF, 14) == 2;
    assert DigitRun(HREF, 13) == 3;
    assert HrefAt(HREF, 0) == Some("123");
    FirstHitIs(HrefAt, HREF, 0, |HREF| + 1, 0);
  }

  const TIER_ROW: Row := Row(["$5", "", "10", "3"], [], "")

  lemma TierRowExample()
    ensures RowTier(TIER_ROW) == Some(PrizeTier(5.0, 10, 3))
  {
    var cells := TIER_ROW.cells;
    assert |cells| == 4 && cells[0] == "$5" && cells[2] == "10" && cells[3] == "3";
    assert StartsWith(cells[0], "$") by {
      assert cells[0][..1] == "$";
    }
    PrizeCell();
    CountCells();
    assert AcceptsRow(TIER_ROW);
  }

  lemma PrizeCell()
    ensures ParsePrizeValue("$5") == 5.0
  {
    assert DigitChar(5) == '5';
    assert Grouped(5) == "5";
    assert "$" + Grouped(5) == "$5";
    ParsePrizeValueOfGrouped(5);
  }

  lemma CountCells()
    ensures ParseNumber("10") == 10 && ParseNumber("3") == 3
  {
    assert DigitChar(1) == '1' && DigitChar(0) == '0' && DigitChar(3) == '3';
    assert NatToString(10) == NatToString(1) + [DigitChar(0)];
    assert Grouped(10) == "10";
    Pow10Exceeds(MAX_STR_DIGITS);
    ParseNumberOfGrouped(10);
    assert Grouped(3) == "3";
    ParseNumberOfGrouped(3);
  }

  /** The good block parses to the game of id 123, with no price yet. */
  lemma GoodBlockParses()
    ensures GameSection(GoodBlock()) ==
      Some(GameData("123", "Lucky Sevens", 0.0, BASE_URL + HREF, Plain, [PrizeTier(5.0, 10, 3)]))
  {
    HrefExample();
    var links := GoodBlock()[0].links;
    assert FirstGameLink(links) == Some(GameLink(Link(HREF, "Lucky Sevens"), "123")) by {
      FirstHitIs(LinkIdAt, links, 0, |links|, 0);
    }
    GoodBlockTiers();
    assert LabelGameId("") == None;
    assert !Contains("", "Reordered");
  }

  lemma GoodBlockTiers()
    ensures PrizeTiers(GoodBlock()[1..]) == [PrizeTier(5.0, 10, 3)]
  {
    TierRowExample();
    var rows := GoodBlock()[1..];
    assert rows == [TIER_ROW];
    assert rows[..0] == [];
  }

  /** The block without a game link does not parse, and the page scan finds no id in it. */
  lemma LinklessBlockFails()
    ensures GameSection(LinklessBlock()) == None
    ensures TableGameId(LinklessBlock()) == None
  {
    assert TableLinks(LinklessBlock()) == [];
  }

  /** The page scan reads id 123 from the good block. */
  lemma GoodBlockId()
    ensures TableGameId(GoodBlock()) == Some("123")
  {
    HrefExample();
    var links := TableLinks(GoodBlock());
    assert links == [Link(HREF, "Lucky Sevens")];
    FirstHitIs(LinkIdAt, links, 0, |links|, 0);
  }

  /** Scanning the page keeps exactly the one game of the good block, priced from its page. */
  lemma ScanExample()
    ensures Scan(Blocks([GoodBlock(), LinklessBlock()]), {}, (url: string) => 5.0).games ==
      [GameData("123", "Lucky Sevens", 5.0, BASE_URL + HREF, Plain, [PrizeTier(5.0, 10, 3)])]
  {
    GoodBlockParses();
    GoodBlockId();
    LinklessBlockFails();
    var tables := [GoodBlock(), LinklessBlock()];
    assert tables[..1] == [GoodBlock()];
    assert Blocks(tables) == [BlockOf(GoodBlock()), BlockOf(LinklessBlock())] by {
      assert Blocks([GoodBlock()]) == [BlockOf(GoodBlock())];
    }
    var blocks := Blocks(tables);
    assert blocks[..1] == [BlockOf(GoodBlock())];
    assert blocks[..1][..0] == [];
  }

  // ---- (4) the header label overrides the URL id ----

  const LABEL: string := "Game Number: 456"

  lemma LabelRuns()
    ensures |LABEL| == 16 && SpaceRun(LABEL, 4) == 1 && SpaceRun(LABEL, 12) == 1 && DigitRun(LABEL, 13) == 3
  {
    var s := LABEL;
    assert s[4] == ' ' && s[5] == 'N' && s[12] == ' ' && s[13] == '4' && s[14] == '5' && s[15] == '6';
    assert SpaceRun(s, 5) == 0 && SpaceRun(s, 4) == 1;
    assert SpaceRun(s, 13) == 0 && SpaceRun(s, 12) == 1;
    assert DigitRun(s, 16) == 0 && DigitRun(s, 15) == 1;
    assert DigitRun(s, 14) == 2 && DigitRun(s, 13) == 3;
  }

  lemma LabelExample()
    ensures LabelGameId(LABEL) == Some("456")
  {
    var s := LABEL;
    LabelRuns();
    assert s[0..4] == "Game" && s[5..12] == "Number:" && s[13..16] == "456";
    assert LabelAt(s, 0) == Some("456");
    FirstHitIs(LabelAt, s, 0, |s| + 1, 0);
  }

  /** A header labelled "Game Number: 456" linking to game 123 gives a game numbered 456. */
  lemma OverrideExample()
    ensures NumberOf(LABEL, "123") == "456"
  {
    LabelExample();
  }
}
