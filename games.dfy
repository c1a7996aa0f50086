/**
 * Prize tiers and games (nc_lottery_website.py:22-67): the remaining
 * percentage of a tier, the top and bottom tier of a game, chosen as
 * Python's `max` and `min` choose them (the first tier holding the extreme
 * value), and the differential triple. Percentages are exact reals.
 */
module Games {
  import opened Wrappers

  datatype PrizeTier = PrizeTier(value: real, total: int, remaining: int)

  /** The two values of `GameData.status`: "" and "Reordered". */
  datatype Status = Plain | Reordered

  datatype GameData = GameData(
    gameNumber: string,
    gameName: string,
    ticketPrice: real,
    url: string,
    status: Status,
    prizeTiers: seq<PrizeTier>)

  /** `PrizeTier.percent_remaining`: remaining as a percentage of total, 0 for a zero total. */
  function PercentRemaining(t: PrizeTier): (pct: real)
    ensures t.total == 0 ==> pct == 0.0
    ensures t.total != 0 ==> pct * (t.total as real) == (t.remaining as real) * 100.0
  {
    if t.total == 0 then 0.0 else ((t.remaining as real) / (t.total as real)) * 100.0
  }

  /** For a tier whose counts are consistent, the percentage lies in 0..100. */
  lemma PercentInRange(t: PrizeTier)
    requires 0 <= t.remaining <= t.total
    ensures 0.0 <= PercentRemaining(t) <= 100.0
  {
    if t.total != 0 {
      var pct := PercentRemaining(t);
      assert pct * (t.total as real) <= 100.0 * (t.total as real);
    }
  }

  /** Remaining is not clamped: more remaining than printed gives more than 100. */
  lemma PercentOverHundred(t: PrizeTier)
    requires 0 < t.total < t.remaining
    ensures PercentRemaining(t) > 100.0
  {
    var pct := PercentRemaining(t);
    assert pct * (t.total as real) > 100.0 * (t.total as real);
  }

  /** Tier `i` has the largest value and every tier before it a smaller one. */
  predicate IsFirstMax(tiers: seq<PrizeTier>, i: nat) {
    i < |tiers|
    && (forall j :: 0 <= j < |tiers| ==> tiers[j].value <= tiers[i].value)
    && (forall j :: 0 <= j < i ==> tiers[j].value < tiers[i].value)
  }

  /** Tier `i` has the smallest value and every tier before it a larger one. */
  predicate IsFirstMin(tiers: seq<PrizeTier>, i: nat) {
    i < |tiers|
    && (forall j :: 0 <= j < |tiers| ==> tiers[i].value <= tiers[j].value)
    && (forall j :: 0 <= j < i ==> tiers[i].value < tiers[j].value)
  }

  /** The index of the tier `max(tiers, key=value)` returns: largest value, first among equals. */
  function TopIndex(tiers: seq<PrizeTier>): (i: nat)
    requires tiers != []
    ensures IsFirstMax(tiers, i)
  {
    if |tiers| == 1 then 0
    else
      var i := TopIndex(tiers[..|tiers| - 1]);
      if tiers[|tiers| - 1].value > tiers[i].value then |tiers| - 1 else i
  }

  /** The index of the tier `min(tiers, key=value)` returns: smallest value, first among equals. */
  function BottomIndex(tiers: seq<PrizeTier>): (i: nat)
    requires tiers != []
    ensures IsFirstMin(tiers, i)
  {
    if |tiers| == 1 then 0
    else
      var i := BottomIndex(tiers[..|tiers| - 1]);
      if tiers[|tiers| - 1].value < tiers[i].value then |tiers| - 1 else i
  }

  /** `get_top_prize`: None only for a game without tiers, else its first highest-valued tier. */
  function GetTopPrize(g: GameData): (r: Option<PrizeTier>)
    ensures r.None? <==> g.prizeTiers == []
    ensures r.Some? ==> exists i: nat :: IsFirstMax(g.prizeTiers, i) && g.prizeTiers[i] == r.value
  {
    if g.prizeTiers == [] then None else Some(g.prizeTiers[TopIndex(g.prizeTiers)])
  }

  /** `get_bottom_prize`: None only for a game without tiers, else its first lowest-valued tier. */
  function GetBottomPrize(g: GameData): (r: Option<PrizeTier>)
    ensures r.None? <==> g.prizeTiers == []
    ensures r.Some? ==> exists i: nat :: IsFirstMin(g.prizeTiers, i) && g.prizeTiers[i] == r.value
  {
    if g.prizeTiers == [] then None else Some(g.prizeTiers[BottomIndex(g.prizeTiers)])
  }

  /** The first-occurrence rule fixes the choice: any first highest tier is the top prize. */
  lemma TopPrizeIsFirstMaximum(g: GameData, i: nat)
    requires IsFirstMax(g.prizeTiers, i)
    ensures GetTopPrize(g) == Some(g.prizeTiers[i])
  {
    FirstMaxUnique(g.prizeTiers, i, TopIndex(g.prizeTiers));
  }

  /** The first-occurrence rule fixes the choice: any first lowest tier is the bottom prize. */
  lemma BottomPrizeIsFirstMinimum(g: GameData, i: nat)
    requires IsFirstMin(g.prizeTiers, i)
    ensures GetBottomPrize(g) == Some(g.prizeTiers[i])
  {
    FirstMinUnique(g.prizeTiers, i, BottomIndex(g.prizeTiers));
  }

  lemma FirstMaxUnique(tiers: seq<PrizeTier>, i: nat, k: nat)
    requires IsFirstMax(tiers, i) && IsFirstMax(tiers, k)
    ensures i == k
  {
    assert tiers[i].value == tiers[k].value;
  }

  lemma FirstMinUnique(tiers: seq<PrizeTier>, i: nat, k: nat)
    requires IsFirstMin(tiers, i) && IsFirstMin(tiers, k)
    ensures i == k
  {
    assert tiers[i].value == tiers[k].value;
  }

  /** The triple `calculate_differential` returns. */
  datatype Differential = Differential(bottomPct: real, topPct: real, differential: real)

  /**
   * `calculate_differential`: the remaining percentages of the bottom and the
   * top tier and their difference (top minus bottom); all zero without tiers.
   */
  function CalculateDifferential(g: GameData): (d: Differential)
    ensures g.prizeTiers == [] ==> d == Differential(0.0, 0.0, 0.0)
    ensures g.prizeTiers != [] ==>
      d.topPct == PercentRemaining(GetTopPrize(g).value) && d.bottomPct == PercentRemaining(GetBottomPrize(g).value)
    ensures d.differential == d.topPct - d.bottomPct
  {
    match (GetTopPrize(g), GetBottomPrize(g))
    case (Some(top), Some(bottom)) =>
      var topPct := PercentRemaining(top);
      var bottomPct := PercentRemaining(bottom);
      Differential(bottomPct, topPct, topPct - bottomPct)
    case _ => Differential(0.0, 0.0, 0.0)
  }

  /**
   * The sign of the differential compares the fractions left of the top and
   * the bottom tier: positive exactly when the top tier has the larger share
   * of its print run left.
   */
  lemma DifferentialSign(g: GameData)
    requires g.prizeTiers != []
    requires GetTopPrize(g).value.total > 0 && GetBottomPrize(g).value.total > 0
    ensures CalculateDifferential(g).differential > 0.0 <==>
      LargerShareLeft(GetTopPrize(g).value, GetBottomPrize(g).value)
  {
    var top, bottom := GetTopPrize(g).value, GetBottomPrize(g).value;
    var d := CalculateDifferential(g);
    assert d.topPct == PercentRemaining(top) && d.bottomPct == PercentRemaining(bottom);
    assert d.differential > 0.0 <==> d.topPct > d.bottomPct;
    PercentCompare(top, bottom);
  }

  /** Tier `a` has a larger fraction of its print run left than tier `b`, by cross-multiplying. */
  predicate LargerShareLeft(a: PrizeTier, b: PrizeTier) {
    (a.remaining as real) * (b.total as real) > (b.remaining as real) * (a.total as real)
  }

  /** Comparing two percentages is comparing the cross products of their counts. */
  lemma PercentCompare(a: PrizeTier, b: PrizeTier)
    requires a.total > 0 && b.total > 0
    ensures PercentRemaining(a) > PercentRemaining(b) <==> LargerShareLeft(a, b)
  {
    var ap, bp := PercentRemaining(a), PercentRemaining(b);
    var at, bt := a.total as real, b.total as real;
    var ar, br := a.remaining as real, b.remaining as real;
    assert ap * at == ar * 100.0;
    assert bp * bt == br * 100.0;
    CrossCompare(ap, at, bp, bt, ar, br);
  }

  lemma CrossCompare(tp: real, tt: real, bp: real, bt: real, tr: real, br: real)
    requires tt > 0.0 && bt > 0.0
    requires tp * tt == tr * 100.0 && bp * bt == br * 100.0
    ensures tp > bp <==> tr * bt > br * tt
  {
    assert tp == tr * 100.0 / tt;
    assert bp == br * 100.0 / bt;
    assert tp - bp == (tr * bt - br * tt) * 100.0 / (tt * bt);
  }

  /** For consistent tiers the differential lies in -100..100. */
  lemma DifferentialInRange(g: GameData)
    requires forall t :: t in g.prizeTiers ==> 0 <= t.remaining <= t.total
    ensures -100.0 <= CalculateDifferential(g).differential <= 100.0
  {
    if g.prizeTiers != [] {
      PercentInRange(GetTopPrize(g).value);
      PercentInRange(GetBottomPrize(g).value);
    }
  }

  /** A game whose tiers all have one value has the same top and bottom tier, so differential 0. */
  lemma SingleValueNoDifferential(g: GameData)
    requires g.prizeTiers != []
    requires forall j :: 0 <= j < |g.prizeTiers| ==> g.prizeTiers[j].value == g.prizeTiers[0].value
    ensures GetTopPrize(g) == GetBottomPrize(g) == Some(g.prizeTiers[0])
    ensures CalculateDifferential(g).differential == 0.0
  {
    assert IsFirstMax(g.prizeTiers, 0) && IsFirstMin(g.prizeTiers, 0);
    TopPrizeIsFirstMaximum(g, 0);
    BottomPrizeIsFirstMinimum(g, 0);
  }
}
