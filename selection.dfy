/**
 * The scan of the prizes-remaining page in `scrape_active_games`
 * (nc_lottery_website.py:242-290). Tables are visited in order. A table
 * whose first game link carries an already processed id is skipped. An id in
 * the claims set is marked processed and skipped. Otherwise the table is
 * parsed; a game it yields marks its id processed and gets its ticket price
 * from the game's own page, and is kept only when that price is positive.
 *
 * The scan is stated over the summary of each table (the id of its first
 * game link and what `parse_game_section` makes of it), so that its
 * properties do not depend on how those are read off the page. The price
 * lookup on the game's page is the parameter `priceOf`.
 */
module Selection {
  import opened Wrappers
  import opened Document
  import opened Games
  import opened Listing

  /** What the scan reads from one table. */
  datatype Block = Block(urlId: Option<string>, parsed: Option<GameData>)

  function BlockOf(table: Table): Block {
    Block(TableGameId(table), GameSection(table))
  }

  function Blocks(tables: seq<Table>): (bs: seq<Block>)
    ensures |bs| == |tables|
  {
    if tables == [] then [] else Blocks(tables[..|tables| - 1]) + [BlockOf(tables[|tables| - 1])]
  }

  lemma {:induction false} BlocksAt(tables: seq<Table>, k: nat)
    requires k < |tables|
    ensures Blocks(tables)[k] == BlockOf(tables[k])
  {
    if k < |tables| - 1 {
      BlocksAt(tables[..|tables| - 1], k);
    }
  }

  /** A table that parses always has a game link, and the scan reads that link's id from it. */
  lemma BlockConsistent(table: Table)
    ensures BlockOf(table).parsed.Some? ==> BlockOf(table).urlId.Some?
  {
    if GameSection(table).Some? {
      SectionIdIsTableId(table);
    }
  }

  /** The ids marked processed so far and the games kept so far. */
  datatype ScanState = ScanState(processed: set<string>, games: seq<GameData>)

  /** A parsed game with the ticket price read from its page. */
  function Priced(g: GameData, priceOf: string -> real): (p: GameData)
    ensures p.ticketPrice == priceOf(g.url)
    ensures p.(ticketPrice := g.ticketPrice) == g
  {
    g.(ticketPrice := priceOf(g.url))
  }

  /** One iteration of the loop over the tables. */
  function Step(st: ScanState, b: Block, claims: set<string>, priceOf: string -> real): ScanState {
    match b.urlId
    case None => st
    case Some(id) =>
      if id in st.processed then st
      else if id in claims then st.(processed := st.processed + {id})
      else
        match b.parsed
        case None => st
        case Some(g) =>
          var p := Priced(g, priceOf);
          ScanState(st.processed + {id}, if p.ticketPrice > 0.0 then st.games + [p] else st.games)
  }

  /** The state after visiting every block, from an empty processed set and no games. */
  function Scan(blocks: seq<Block>, claims: set<string>, priceOf: string -> real): ScanState {
    if blocks == [] then ScanState({}, [])
    else Step(Scan(blocks[..|blocks| - 1], claims, priceOf), blocks[|blocks| - 1], claims, priceOf)
  }

  // ---- an independent description of the outcome ----

  /** Block `j` marks `id` processed if the scan reaches it: the id is claimed, or the block parses. */
  predicate Marks(blocks: seq<Block>, claims: set<string>, j: nat, id: string) {
    j < |blocks| && blocks[j].urlId == Some(id) && (id in claims || blocks[j].parsed.Some?)
  }

  /** Some block before position `n` marks `id`. */
  predicate MarkedBefore(blocks: seq<Block>, claims: set<string>, n: nat, id: string) {
    exists j :: 0 <= j < n && Marks(blocks, claims, j, id)
  }

  /**
   * Block `k` contributes a game: it has an id, the id is not claimed and no
   * earlier block marked it, the block parses, and the game's price is
   * positive.
   */
  predicate Picked(blocks: seq<Block>, claims: set<string>, priceOf: string -> real, k: nat) {
    k < |blocks| && blocks[k].urlId.Some? && blocks[k].urlId.value !in claims
    && !MarkedBefore(blocks, claims, k, blocks[k].urlId.value)
    && blocks[k].parsed.Some? && priceOf(blocks[k].parsed.value.url) > 0.0
  }

  /** The priced games of the picked blocks among the first `n`, in block order. */
  function PickedGames(blocks: seq<Block>, claims: set<string>, priceOf: string -> real, n: nat): (r: seq<GameData>)
    requires n <= |blocks|
    ensures |r| <= n
  {
    if n == 0 then []
    else
      PickedGames(blocks, claims, priceOf, n - 1) +
        (if Picked(blocks, claims, priceOf, n - 1) then [Priced(blocks[n - 1].parsed.value, priceOf)] else [])
  }

  lemma {:induction false} MarkedBeforeStep(blocks: seq<Block>, claims: set<string>, n: nat, id: string)
    requires n < |blocks|
    ensures MarkedBefore(blocks, claims, n + 1, id) <==>
      MarkedBefore(blocks, claims, n, id) || Marks(blocks, claims, n, id)
  {
    if MarkedBefore(blocks, claims, n + 1, id) {
      var j :| 0 <= j < n + 1 && Marks(blocks, claims, j, id);
      if j < n {
        assert MarkedBefore(blocks, claims, n, id);
      }
    }
  }

  /**
   * The scan of the first `n` blocks has marked exactly the ids some block
   * among them marks, and kept exactly the picked games in order.
   */
  lemma {:induction false} ScanSpec(blocks: seq<Block>, claims: set<string>, priceOf: string -> real, n: nat)
    requires n <= |blocks|
    ensures forall id :: id in Scan(blocks[..n], claims, priceOf).processed <==> MarkedBefore(blocks, claims, n, id)
    ensures Scan(blocks[..n], claims, priceOf).games == PickedGames(blocks, claims, priceOf, n)
  {
    if n == 0 {
      assert blocks[..0] == [];
    } else {
      ScanSpec(blocks, claims, priceOf, n - 1);
      var prev := Scan(blocks[..n - 1], claims, priceOf);
      assert blocks[..n][..n - 1] == blocks[..n - 1];
      assert Scan(blocks[..n], claims, priceOf) == Step(prev, blocks[n - 1], claims, priceOf);
      forall id ensures MarkedBefore(blocks, claims, n, id) <==>
        MarkedBefore(blocks, claims, n - 1, id) || Marks(blocks, claims, n - 1, id)
      {
        MarkedBeforeStep(blocks, claims, n - 1, id);
      }
      StepSpec(prev, blocks, claims, priceOf, n - 1);
    }
  }

  /** One step keeps the description: it marks what block `k` marks and appends its game if picked. */
  lemma StepSpec(st: ScanState, blocks: seq<Block>, claims: set<string>, priceOf: string -> real, k: nat)
    requires k < |blocks|
    requires forall id :: id in st.processed <==> MarkedBefore(blocks, claims, k, id)
    ensures forall id :: id in Step(st, blocks[k], claims, priceOf).processed <==>
      id in st.processed || Marks(blocks, claims, k, id)
    ensures Step(st, blocks[k], claims, priceOf).games ==
      st.games + (if Picked(blocks, claims, priceOf, k) then [Priced(blocks[k].parsed.value, priceOf)] else [])
  {
  }

  /** The games the whole scan keeps. */
  lemma ScanGames(blocks: seq<Block>, claims: set<string>, priceOf: string -> real)
    ensures Scan(blocks, claims, priceOf).games == PickedGames(blocks, claims, priceOf, |blocks|)
  {
    ScanSpec(blocks, claims, priceOf, |blocks|);
    assert blocks[..|blocks|] == blocks;
  }

  /** A kept game is the priced parse of some picked block, and every picked block's game is kept. */
  lemma {:induction false} PickedGamesMembers(blocks: seq<Block>, claims: set<string>, priceOf: string -> real, n: nat, g: GameData)
    requires n <= |blocks|
    ensures g in PickedGames(blocks, claims, priceOf, n) <==>
      exists k :: 0 <= k < n && Picked(blocks, claims, priceOf, k) && g == Priced(blocks[k].parsed.value, priceOf)
  {
    if n > 0 {
      PickedGamesMembers(blocks, claims, priceOf, n - 1, g);
    }
  }

  /** Every kept game is the priced parse of a picked block, so its price is positive and its id unclaimed. */
  lemma SelectedGames(blocks: seq<Block>, claims: set<string>, priceOf: string -> real, g: GameData)
    requires g in Scan(blocks, claims, priceOf).games
    ensures g.ticketPrice > 0.0
    ensures exists k :: 0 <= k < |blocks| && Picked(blocks, claims, priceOf, k) && g == Priced(blocks[k].parsed.value, priceOf)
  {
    ScanGames(blocks, claims, priceOf);
    PickedGamesMembers(blocks, claims, priceOf, |blocks|, g);
  }

  /** At most one block is picked per id: a repeated id is never processed twice. */
  lemma PickedUnique(blocks: seq<Block>, claims: set<string>, priceOf: string -> real, k: nat, m: nat)
    requires Picked(blocks, claims, priceOf, k) && Picked(blocks, claims, priceOf, m)
    requires blocks[k].urlId == blocks[m].urlId
    ensures k == m
  {
    if k < m {
      assert Marks(blocks, claims, k, blocks[m].urlId.value);
    } else if m < k {
      assert Marks(blocks, claims, m, blocks[k].urlId.value);
    }
  }

  /**
   * The first parsing block of an id takes the id even when its price is
   * not positive: a later block with the same id is then never picked.
   */
  lemma FirstParseDecides(blocks: seq<Block>, claims: set<string>, priceOf: string -> real, j: nat, k: nat)
    requires j < k < |blocks|
    requires blocks[j].urlId.Some? && blocks[j].urlId == blocks[k].urlId && blocks[j].parsed.Some?
    ensures !Picked(blocks, claims, priceOf, k)
  {
    assert Marks(blocks, claims, j, blocks[k].urlId.value);
  }

  /**
   * `scrape_active_games` after the claims set is known, with the prizes
   * page already fetched (None when the fetch failed).
   */
  method SelectActiveGames(page: Option<Page>, claims: set<string>, priceOf: string -> real) returns (games: seq<GameData>)
    ensures page.None? ==> games == []
    ensures page.Some? ==> games == Scan(Blocks(page.value), claims, priceOf).games
  {
    games := [];
    if page.None? {
      return;
    }
    var tables := page.value;
    var processed: set<string> := {};
    for i := 0 to |tables|
      invariant Scan(Blocks(tables[..i]), claims, priceOf) == ScanState(processed, games)
    {
      assert tables[..i + 1][..i] == tables[..i];
      assert Blocks(tables[..i + 1]) == Blocks(tables[..i]) + [BlockOf(tables[i])];
      assert Blocks(tables[..i + 1])[..i] == Blocks(tables[..i]);
      var table := tables[i];
      var urlId := TableGameId(table);
      if urlId.None? {
        continue;
      }
      var id := urlId.value;
      if id in processed {
        continue;
      }
      if id in claims {
        processed := processed + {id};
        continue;
      }
      var parsed := ParseGameSection(table);
      if parsed.Some? {
        processed := processed + {id};
        var g := parsed.value.(ticketPrice := priceOf(parsed.value.url));
        if g.ticketPrice > 0.0 {
          games := games + [g];
        }
      }
    }
    assert tables[..|tables|] == tables;
  }
}
