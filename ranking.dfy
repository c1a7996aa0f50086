/**
 * `analyze_and_rank_games` (nc_lottery_website.py:292-306): each scraped
 * game with its differential triple, ordered by differential from high to
 * low. Python's `list.sort(key=..., reverse=True)` is stable: entries with
 * equal differentials keep their input order. The sort is described by a
 * reference stable insertion sort, proved sorted, a permutation of its
 * input and stable.
 */
module Ranking {
  import opened Games
  import Seqs

  /** One result tuple `(game, bottom_pct, top_pct, differential)`. */
  datatype Ranked = Ranked(game: GameData, bottomPct: real, topPct: real, differential: real)

  /**
   * The result tuple of one game. The ranking of these tuples is stated by
   * SortedByDifferential, SortIsPermutation and SortIsStable.
   */
  function EntryOf(g: GameData): (r: Ranked)
    ensures r.game == g
    ensures Differential(r.bottomPct, r.topPct, r.differential) == CalculateDifferential(g)
    ensures r.differential == r.topPct - r.bottomPct
  {
    var d := CalculateDifferential(g);
    Ranked(g, d.bottomPct, d.topPct, d.differential)
  }

  /** The result tuples of the games, in game order, as the loop appends them. */
  function Entries(games: seq<GameData>): (rs: seq<Ranked>)
    ensures |rs| == |games|
  {
    if games == [] then [] else Entries(games[..|games| - 1]) + [EntryOf(games[|games| - 1])]
  }

  lemma {:induction false} EntriesAt(games: seq<GameData>, k: nat)
    requires k < |games|
    ensures Entries(games)[k] == EntryOf(games[k])
  {
    if k < |games| - 1 {
      EntriesAt(games[..|games| - 1], k);
    }
  }

  /** Differentials never increase along the sequence. */
  predicate SortedDesc(rs: seq<Ranked>) {
    forall i, j :: 0 <= i < j < |rs| ==> rs[i].differential >= rs[j].differential
  }

  /** Insert `x` into a sorted sequence after every entry whose differential is at least its own. */
  function Insert(x: Ranked, s: seq<Ranked>): (r: seq<Ranked>)
    ensures |r| == |s| + 1
  {
    if s == [] then [x]
    else if s[0].differential >= x.differential then [s[0]] + Insert(x, s[1..])
    else [x] + s
  }

  lemma {:induction false} InsertPermutation(x: Ranked, s: seq<Ranked>)
    ensures multiset(Insert(x, s)) == multiset(s) + multiset{x}
  {
    if s != [] && s[0].differential >= x.differential {
      InsertPermutation(x, s[1..]);
      assert s == [s[0]] + s[1..];
    }
  }

  /** The order `results.sort(key=lambda x: x[3], reverse=True)` leaves the entries in. */
  function SortByDifferential(rs: seq<Ranked>): (r: seq<Ranked>)
    ensures |r| == |rs|
  {
    if rs == [] then [] else Insert(rs[|rs| - 1], SortByDifferential(rs[..|rs| - 1]))
  }

  lemma {:induction false} InsertSorted(x: Ranked, s: seq<Ranked>)
    requires SortedDesc(s)
    ensures SortedDesc(Insert(x, s))
  {
    if s != [] && s[0].differential >= x.differential {
      InsertSorted(x, s[1..]);
      var r := Insert(x, s);
      var tail := Insert(x, s[1..]);
      assert r == [s[0]] + tail;
      InsertPermutation(x, s[1..]);
      forall k | 0 <= k < |tail| ensures s[0].differential >= tail[k].differential {
        assert tail[k] in multiset(tail);
        assert tail[k] in multiset(s[1..]) + multiset{x};
        if tail[k] in multiset(s[1..]) {
          var m :| 0 <= m < |s[1..]| && s[1..][m] == tail[k];
          assert s[m + 1] == tail[k];
        }
      }
    }
  }

  /** The ranked order is sorted by differential, high to low. */
  lemma {:induction false} SortedByDifferential(rs: seq<Ranked>)
    ensures SortedDesc(SortByDifferential(rs))
  {
    if rs != [] {
      SortedByDifferential(rs[..|rs| - 1]);
      InsertSorted(rs[|rs| - 1], SortByDifferential(rs[..|rs| - 1]));
    }
  }

  /** The ranked order holds the same entries, each as often. */
  lemma {:induction false} SortIsPermutation(rs: seq<Ranked>)
    ensures multiset(SortByDifferential(rs)) == multiset(rs)
  {
    if rs != [] {
      SortIsPermutation(rs[..|rs| - 1]);
      InsertPermutation(rs[|rs| - 1], SortByDifferential(rs[..|rs| - 1]));
      assert rs == rs[..|rs| - 1] + [rs[|rs| - 1]];
    }
  }

  /** The entries whose differential is `v`, as a filter predicate. */
  function HasDifferential(v: real): Ranked -> bool {
    (r: Ranked) => r.differential == v
  }

  /** In a sorted sequence whose first entry is below `v`, no entry has differential `v`. */
  lemma NoneEqualBelow(s: seq<Ranked>, v: real)
    requires SortedDesc(s) && s != [] && s[0].differential < v
    ensures Seqs.Filter(s, HasDifferential(v)) == []
  {
    Seqs.FilterNone(s, HasDifferential(v));
  }

  /** Inserting `x` puts it after every entry of equal differential already there. */
  lemma {:induction false} InsertStable(x: Ranked, s: seq<Ranked>, v: real)
    requires SortedDesc(s)
    ensures Seqs.Filter(Insert(x, s), HasDifferential(v)) ==
      Seqs.Filter(s, HasDifferential(v)) + Seqs.Filter([x], HasDifferential(v))
  {
    if s == [] {
      assert Insert(x, s) == [x];
      assert Seqs.Filter(s, HasDifferential(v)) == [];
    } else if s[0].differential >= x.differential {
      SortedTail(s);
      InsertStable(x, s[1..], v);
      assert Insert(x, s) == [s[0]] + Insert(x, s[1..]);
      StableKeep(s[0], Insert(x, s[1..]), s[1..], x, HasDifferential(v));
      assert [s[0]] + s[1..] == s;
    } else {
      assert Insert(x, s) == [x] + s;
      StableFront(x, s, v);
    }
  }

  lemma SortedTail(s: seq<Ranked>)
    requires SortedDesc(s) && s != []
    ensures SortedDesc(s[1..])
  {
    forall i, j | 0 <= i < j < |s| - 1 ensures s[1..][i].differential >= s[1..][j].differential {
      assert s[1..][i] == s[i + 1] && s[1..][j] == s[j + 1];
    }
  }

  /** Keeping the head in front: a filter identity for the inner insertion carries over. */
  lemma StableKeep(y: Ranked, tail: seq<Ranked>, rest: seq<Ranked>, x: Ranked, p: Ranked -> bool)
    requires Seqs.Filter(tail, p) == Seqs.Filter(rest, p) + Seqs.Filter([x], p)
    ensures Seqs.Filter([y] + tail, p) == Seqs.Filter([y] + rest, p) + Seqs.Filter([x], p)
  {
    Seqs.FilterConcat([y], tail, p);
    Seqs.FilterConcat([y], rest, p);
  }

  /** Putting `x` in front of entries of smaller differential moves no entry of its differential ahead of another. */
  lemma StableFront(x: Ranked, s: seq<Ranked>, v: real)
    requires SortedDesc(s) && s != [] && s[0].differential < x.differential
    ensures Seqs.Filter([x] + s, HasDifferential(v)) ==
      Seqs.Filter(s, HasDifferential(v)) + Seqs.Filter([x], HasDifferential(v))
  {
    var p := HasDifferential(v);
    Seqs.FilterConcat([x], s, p);
    if x.differential == v {
      NoneEqualBelow(s, v);
    } else {
      assert Seqs.Filter([x], p) == Seqs.Filter([], p) + [];
    }
  }

  /** Stability: the entries of any one differential keep their input order. */
  lemma {:induction false} SortIsStable(rs: seq<Ranked>, v: real)
    ensures Seqs.Filter(SortByDifferential(rs), HasDifferential(v)) == Seqs.Filter(rs, HasDifferential(v))
  {
    if rs != [] {
      var init, x := rs[..|rs| - 1], rs[|rs| - 1];
      SortIsStable(init, v);
      SortedByDifferential(init);
      InsertStable(x, SortByDifferential(init), v);
      Seqs.FilterConcat(init, [x], HasDifferential(v));
      assert init + [x] == rs;
    }
  }

  /**
   * `analyze_and_rank_games` once the games are scraped: the loop that
   * appends each game's tuple, then the stable descending sort.
   */
  method RankGames(games: seq<GameData>) returns (results: seq<Ranked>)
    ensures results == SortByDifferential(Entries(games))
    ensures SortedDesc(results) && multiset(results) == multiset(Entries(games))
  {
    results := [];
    if games == [] {
      return;
    }
    for i := 0 to |games|
      invariant results == Entries(games[..i])
    {
      assert games[..i + 1][..i] == games[..i];
      var d := CalculateDifferential(games[i]);
      results := results + [Ranked(games[i], d.bottomPct, d.topPct, d.differential)];
    }
    assert games[..|games|] == games;
    results := SortByDifferential(results);
    SortedByDifferential(Entries(games));
    SortIsPermutation(Entries(games));
  }
}
