/**
 What the statements of a step compute, whatever rows they are given: every
 table is a sum over matches, the floor tables are what their two-stage
 statements build, and the totals are the stats summed over tier.
 */
module Aggregates {
  import opened Sums
  import opened Tables

  ghost predicate MatchDisjoint(f: set<Row>, g: set<Row>) {
    forall a, b | a in f && b in g :: a.mid != b.mid
  }

  /** The rows of one match. */
  function OfMatch(rows: set<Row>, m: MatchId): set<Row> {
    set r | r in rows && r.mid == m
  }

  function MatchesOf(rows: set<Row>): set<MatchId> {
    set r | r in rows :: r.mid
  }

  // ── Additivity ────────────────────────────────────────────────────────────

  /** A unit belongs to a match of the rows it was counted from. */
  lemma {:induction false} UnitsKnowTheirMatch(rows: set<Row>, k: Key, c: nat, u: Unit)
    requires u in Units(rows, k, c)
    ensures exists r :: r in rows && r.mid == UnitMatch(u)
  {
    if k.Versus? {
      var a, b :| a in rows && b in rows && Duelling(rows, a, b) && u == Duel(a, b);
      assert a.mid == UnitMatch(u);
    } else {
      var r :| r in rows && InGroup(r, k) && u == UnitOf(r, k, c);
      assert r.mid == UnitMatch(u);
    }
  }

  /** Lanes never cross matches, so a duel in a part is a duel in the whole. */
  lemma {:induction false} DuelsSplit(f: set<Row>, g: set<Row>, a: Row, b: Row)
    requires MatchDisjoint(f, g)
    ensures Duelling(f + g, a, b) <==> Duelling(f, a, b) || Duelling(g, a, b)
  {
    if a in f && b in f && a.mid == b.mid {
      assert Heads(f + g, a) == Heads(f, a);
      assert Heads(f + g, b) == Heads(f, b);
    }
    if a in g && b in g && a.mid == b.mid {
      assert Heads(f + g, a) == Heads(g, a);
      assert Heads(f + g, b) == Heads(g, b);
    }
  }

  lemma {:induction false} UnitsSplit(f: set<Row>, g: set<Row>, k: Key, c: nat)
    requires MatchDisjoint(f, g)
    ensures Units(f + g, k, c) == Units(f, k, c) + Units(g, k, c)
    ensures Units(f, k, c) !! Units(g, k, c)
  {
    if k.Versus? {
      forall a: Row, b: Row ensures Duelling(f + g, a, b) <==> Duelling(f, a, b) || Duelling(g, a, b) {
        DuelsSplit(f, g, a, b);
      }
    }
    if u :| u in Units(f, k, c) && u in Units(g, k, c) {
      UnitsKnowTheirMatch(f, k, c, u);
      UnitsKnowTheirMatch(g, k, c, u);
    }
  }

  /**
   Every column of every table is additive over matches: grouping a union of
   parts that share no match adds up what grouping each part gives.
   */
  lemma {:induction false} AggAdditive(f: set<Row>, g: set<Row>, k: Key, c: nat)
    requires MatchDisjoint(f, g)
    ensures Agg(f + g, k, c) == Agg(f, k, c) + Agg(g, k, c)
  {
    UnitsSplit(f, g, k, c);
    SumUnion(Units(f, k, c), Units(g, k, c), Worth(c));
  }

  lemma {:induction false} AggEmpty(k: Key, c: nat)
    ensures Agg({}, k, c) == 0
  {
    assert Units({}, k, c) == {};
  }

  /** Taking the rows of some matches out and putting others in, the same matches or not. */
  lemma {:induction false} AggReplace(keep: set<Row>, out: set<Row>, into: set<Row>, k: Key, c: nat)
    requires MatchDisjoint(keep, out) && MatchDisjoint(keep, into)
    ensures Agg(keep + into, k, c) == Agg(keep + out, k, c) - Agg(out, k, c) + Agg(into, k, c)
  {
    AggAdditive(keep, out, k, c);
    AggAdditive(keep, into, k, c);
  }

  /** The units of one match among all units are that match's own. */
  lemma {:induction false} UnitsOfMatch(rows: set<Row>, m: MatchId, k: Key, c: nat)
    ensures Fibre(Units(rows, k, c), UnitMatch, m) == Units(OfMatch(rows, m), k, c)
  {
    var one, rest := OfMatch(rows, m), rows - OfMatch(rows, m);
    assert one + rest == rows;
    UnitsSplit(one, rest, k, c);
    forall u | u in Units(one, k, c) ensures UnitMatch(u) == m {
      UnitsKnowTheirMatch(one, k, c, u);
    }
    forall u | u in Units(rest, k, c) ensures UnitMatch(u) != m {
      UnitsKnowTheirMatch(rest, k, c, u);
    }
  }

  /** The sum over matches, written out: each match's own contribution, added up. */
  lemma {:induction false} AggByMatch(rows: set<Row>, k: Key, c: nat)
    ensures Agg(rows, k, c) == Sum(MatchesOf(rows), (m: MatchId) => Agg(OfMatch(rows, m), k, c))
  {
    var units, ms := Units(rows, k, c), MatchesOf(rows);
    forall u | u in units ensures UnitMatch(u) in ms {
      UnitsKnowTheirMatch(rows, k, c, u);
    }
    SumFibres(units, ms, UnitMatch, Worth(c));
    var fibres := (m: MatchId) => Sum(Fibre(units, UnitMatch, m), Worth(c));
    var per := (m: MatchId) => Agg(OfMatch(rows, m), k, c);
    forall m | m in ms ensures fibres(m) == per(m) {
      UnitsOfMatch(rows, m, k, c);
    }
    SumSame(ms, fibres, per);
  }

  /** The result of a step over a union has the groups of both parts and their cells added. */
  lemma {:induction false} QueryAdditive(s: Step, f: set<Row>, g: set<Row>, k: Key)
    requires MatchDisjoint(f, g) && StepOf(k) == s
    ensures k in Query(s, f + g) <==> k in Query(s, f) || k in Query(s, g)
    ensures forall c | 0 <= c < Width(k) ::
              Cell(Query(s, f + g), k, c) == Cell(Query(s, f), k, c) + Cell(Query(s, g), k, c)
  {
    KeysAreGroups(s, f, k);
    KeysAreGroups(s, g, k);
    KeysAreGroups(s, f + g, k);
    UnitsSplit(f, g, k, 0);
    forall c | 0 <= c < Width(k)
      ensures Cell(Query(s, f + g), k, c) == Cell(Query(s, f), k, c) + Cell(Query(s, g), k, c)
    {
      AggAdditive(f, g, k, c);
      QueryCell(s, f, k, c);
      QueryCell(s, g, k, c);
      QueryCell(s, f + g, k, c);
    }
  }

  lemma OtherPatches(rows: set<Row>, k: Key, c: nat)
    requires forall r | r in rows :: r.info.patch != k.patch
    ensures Units(rows, k, c) == {}
  {}

  /** A group reads only the rows of its own patch. */
  lemma {:induction false} PatchLocal(rows: set<Row>, ps: set<Patch>, k: Key, c: nat)
    requires OneInfo(rows)
    ensures Agg(OnPatches(rows, ps), k, c) == if k.patch in ps then Agg(rows, k, c) else 0
  {
    var on, off := OnPatches(rows, ps), rows - OnPatches(rows, ps);
    assert on + off == rows;
    AggAdditive(on, off, k, c);
    if k.patch in ps {
      OtherPatches(off, k, c);
    } else {
      OtherPatches(on, k, c);
    }
  }

  function OnPatches(rows: set<Row>, ps: set<Patch>): set<Row> {
    set r | r in rows && r.info.patch in ps
  }

  /** A match has one `matches` row. */
  ghost predicate OneInfo(rows: set<Row>) {
    forall a, b | a in rows && b in rows && a.mid == b.mid :: a.info == b.info
  }

  /** Players without set builds add nothing to the set builds' tables. */
  lemma {:induction false} NoBuildsNoSets(rows: set<Row>, k: Key, c: nat)
    requires StepOf(k) == Sets
    requires forall r | r in rows :: r.builds == map[]
    ensures Agg(rows, k, c) == 0
  {
    assert Units(rows, k, c) == {};
  }

  // ── Floors ────────────────────────────────────────────────────────────────

  /** The facts `floor_top` reads: stamped, at one of Riot's tiers. */
  predicate OnAFloor(r: Row) {
    Stamped(r) && r.tier.value in FLOORS
  }

  predicate Reaches(rows: set<Row>, m: MatchId, rank: int) {
    exists r | r in rows :: r.mid == m && OnAFloor(r) && Rank(r.tier.value) == rank
  }

  /** `max(fl.rank)` of a match's rows, looking from `from` down; -1 when it is on no floor. */
  function TopRankFrom(rows: set<Row>, m: MatchId, from: int): int
    requires -1 <= from
    decreases from
  {
    if from == -1 then -1 else if Reaches(rows, m, from) then from else TopRankFrom(rows, m, from - 1)
  }

  /** A match's `rank` in `floor_top`. */
  function TopRank(rows: set<Row>, m: MatchId): int {
    TopRankFrom(rows, m, 9)
  }

  /** The group of the floor tables a row may fall in, its floor left open. */
  predicate InFloorGroup(r: Row, k: Key)
    requires k.FloorTotal? || k.BanFloorTotal?
  {
    OnAFloor(r) && r.info.patch == k.patch && Remake(r) == k.remake && (k.BanFloorTotal? ==> Banned(r, k.champion))
  }

  /** `g`: the matches of the group whose top rank is `rank`. */
  function TopMatches(rows: set<Row>, k: Key, rank: int): set<Unit>
    requires k.FloorTotal? || k.BanFloorTotal?
  {
    set r | r in rows && InFloorGroup(r, k) && TopRank(rows, r.mid) == rank :: ByMatch(r.mid)
  }

  /** `sum(g.n)` over `fl.rank <= g.rank`: the counts per top rank, spread down to a floor. */
  function Spread(rows: set<Row>, k: Key, floor: int): int
    requires k.FloorTotal? || k.BanFloorTotal?
    decreases 10 - floor
  {
    if floor >= 10 then 0 else |TopMatches(rows, k, floor)| + Spread(rows, k, floor + 1)
  }

  lemma {:induction false} TopRankIsMax(rows: set<Row>, m: MatchId, from: int)
    requires -1 <= from
    ensures -1 <= TopRankFrom(rows, m, from) <= from
    ensures TopRankFrom(rows, m, from) >= 0 ==> Reaches(rows, m, TopRankFrom(rows, m, from))
    ensures forall i | TopRankFrom(rows, m, from) < i <= from :: !Reaches(rows, m, i)
    decreases from
  {
    if from != -1 && !Reaches(rows, m, from) {
      TopRankIsMax(rows, m, from - 1);
    }
  }

  /** The matches of the group whose top rank is at least `floor`. */
  function AboveFloor(rows: set<Row>, k: Key, floor: int): set<Unit>
    requires k.FloorTotal? || k.BanFloorTotal?
  {
    set r | r in rows && InFloorGroup(r, k) && TopRank(rows, r.mid) >= floor :: ByMatch(r.mid)
  }

  lemma AboveFloorStep(rows: set<Row>, k: Key, floor: int)
    requires k.FloorTotal? || k.BanFloorTotal?
    ensures AboveFloor(rows, k, floor) == TopMatches(rows, k, floor) + AboveFloor(rows, k, floor + 1)
    ensures TopMatches(rows, k, floor) !! AboveFloor(rows, k, floor + 1)
  {}

  lemma {:induction false} NothingAboveChallenger(rows: set<Row>, k: Key)
    requires k.FloorTotal? || k.BanFloorTotal?
    ensures AboveFloor(rows, k, 10) == {}
  {
    forall r | r in rows ensures TopRank(rows, r.mid) < 10 {
      TopRankIsMax(rows, r.mid, 9);
    }
  }

  /** A match has one top rank, so the counts per rank are disjoint and their sum is exact. */
  lemma {:induction false} SpreadCounts(rows: set<Row>, k: Key, floor: int)
    requires k.FloorTotal? || k.BanFloorTotal?
    requires 0 <= floor <= 10
    ensures Spread(rows, k, floor) == |AboveFloor(rows, k, floor)|
    decreases 10 - floor
  {
    if floor == 10 {
      NothingAboveChallenger(rows, k);
    } else {
      SpreadCounts(rows, k, floor + 1);
      AboveFloorStep(rows, k, floor);
    }
  }

  /** A match's top rank is at least a floor's exactly when one of its players is at or above it. */
  lemma {:induction false} TopRankAtLeast(rows: set<Row>, m: MatchId, floor: Tier)
    requires floor in FLOORS
    ensures TopRank(rows, m) >= Rank(floor) <==>
            exists r :: r in rows && r.mid == m && Stamped(r) && AtOrAbove(r.tier.value, floor)
  {
    TopRankIsMax(rows, m, 9);
    if r :| r in rows && r.mid == m && Stamped(r) && AtOrAbove(r.tier.value, floor) {
      assert Reaches(rows, m, Rank(r.tier.value));
    }
    if TopRank(rows, m) >= Rank(floor) {
      var r :| r in rows && r.mid == m && OnAFloor(r) && Rank(r.tier.value) == TopRank(rows, m);
      assert AtOrAbove(r.tier.value, floor);
    }
  }

  /**
   The floor tables, built by reducing each match to its top rank, counting per
   rank and spreading downward, hold the direct definition: per floor, the
   distinct matches (banning the champion) with a player at or above it.
   */
  lemma {:induction false} FloorsAreDirect(rows: set<Row>, k: Key)
    requires k.FloorTotal? || k.BanFloorTotal?
    requires k.floor in FLOORS
    requires OneInfo(rows)
    ensures Spread(rows, k, Rank(k.floor)) == Agg(rows, k, 0)
    ensures Agg(rows, k, 0) == |Units(rows, k, 0)|
  {
    SpreadCounts(rows, k, Rank(k.floor));
    CountColumn(rows, k);
    AboveFloorUnits(rows, k);
  }

  lemma {:induction false} AboveFloorUnits(rows: set<Row>, k: Key)
    requires k.FloorTotal? || k.BanFloorTotal?
    requires k.floor in FLOORS
    requires OneInfo(rows)
    ensures AboveFloor(rows, k, Rank(k.floor)) == Units(rows, k, 0)
  {
    forall u | u in AboveFloor(rows, k, Rank(k.floor)) ensures u in Units(rows, k, 0) {
      var r :| r in rows && InFloorGroup(r, k) && TopRank(rows, r.mid) >= Rank(k.floor) && u == ByMatch(r.mid);
      TopRankAtLeast(rows, r.mid, k.floor);
      var q :| q in rows && q.mid == r.mid && Stamped(q) && AtOrAbove(q.tier.value, k.floor);
      assert q.info == r.info;
      assert InGroup(q, k) && UnitOf(q, k, 0) == u;
    }
    forall u | u in Units(rows, k, 0) ensures u in AboveFloor(rows, k, Rank(k.floor)) {
      var r :| r in rows && InGroup(r, k) && u == UnitOf(r, k, 0);
      TopRankAtLeast(rows, r.mid, k.floor);
      assert InFloorGroup(r, k);
    }
  }

  // ── Totals over tier ──────────────────────────────────────────────────────

  /** A `champion_stats` key without its tier. */
  function Untiered(k: Key): Key
    requires k.Stat?
  {
    StatTotal(k.patch, k.champion, k.role, k.remake, k.side)
  }

  function Tiered(k: Key, t: Tier): Key
    requires k.StatTotal?
  {
    Stat(t, k.patch, k.champion, k.role, k.remake, k.side)
  }

  /** The stats rows `totals_from` adds up for one totals row. */
  function StatRows(t: Table, k: Key): set<Key>
    requires k.StatTotal?
  {
    set s | s in t && s.Stat? && Untiered(s) == k
  }

  ghost function TotalCell(t: Table, k: Key, c: nat): int
    requires k.StatTotal?
  {
    Sum(StatRows(t, k), Column(t, c))
  }

  /** Column `c` of a table, by key. */
  function Column(t: Table, c: nat): Key -> int {
    (s: Key) => Cell(t, s, c)
  }

  /** `totals_from`: the stats rows of a table summed over tier. */
  ghost function TotalsFrom(t: Table): Table {
    map k | k in (set s | s in t && s.Stat? :: Untiered(s)) :: TotalVector(t, k)
  }

  ghost function TotalVector(t: Table, k: Key): seq<int>
    requires k.StatTotal?
  {
    seq(Width(k), (c: nat) => TotalCell(t, k, c))
  }

  /** A step's rows as its statements select them from facts: all but the totals over tier. */
  ghost function Direct(s: Step, rows: set<Row>): Table {
    map k | k in Query(s, rows) && !k.StatTotal? :: Query(s, rows)[k]
  }

  function StatKeyOfUnit(k: Key): Unit -> Key
    requires k.StatTotal?
  {
    (u: Unit) =>
      match u
      case Player(r) => Tiered(k, if r.tier.Some? then r.tier.value else Unknown)
      case ByTier(t, _) => Tiered(k, t)
      case _ => Tiered(k, Unknown)
  }

  /** The units of a totals row at one tier are worth what that tier's stats row counts. */
  lemma {:induction false} TierShare(rows: set<Row>, k: Key, t: Tier, c: nat)
    requires k.StatTotal?
    ensures Sum(Fibre(Units(rows, k, c), StatKeyOfUnit(k), Tiered(k, t)), Worth(c)) == Agg(rows, Tiered(k, t), c)
  {
    var s := Tiered(k, t);
    var fibre := Fibre(Units(rows, k, c), StatKeyOfUnit(k), s);
    assert forall r | r in rows :: InGroup(r, s) <==> InGroup(r, k) && r.tier.value == t;
    if c == 2 {
      var h := (u: Unit) => ByTier(t, UnitMatch(u));
      var units := Units(rows, s, c);
      forall u | u in fibre ensures exists w :: w in units && h(w) == u {
        var r :| r in rows && InGroup(r, k) && u == UnitOf(r, k, c);
        assert UnitOf(r, s, c) in units && h(UnitOf(r, s, c)) == u;
      }
      forall u | u in units ensures u.ByMatch? && h(u) in fibre {
        var r :| r in rows && InGroup(r, s) && u == UnitOf(r, s, c);
        assert UnitOf(r, k, c) == h(u);
      }
      SumImage(units, fibre, h, Worth(c), Worth(c));
    } else {
      assert fibre == Units(rows, s, c);
    }
  }

  /** `champion_stats_totals` from the stats rows is the same grouping without the tier. */
  lemma {:induction false} TotalsAreUntiered(rows: set<Row>, k: Key, c: nat)
    requires k.StatTotal? && c < 12
    ensures TotalCell(Direct(Champions, rows), k, c) == Agg(rows, k, c)
  {
    hide Keys, Units, InGroup, Agg, Vector;
    var t := Direct(Champions, rows);
    var units, stats := Units(rows, k, c), StatRows(t, k);
    forall u | u in units ensures StatKeyOfUnit(k)(u) in stats {
      UnitHasStat(rows, k, c, u);
    }
    SumFibres(units, stats, StatKeyOfUnit(k), Worth(c));
    var fibres := (s: Key) => Sum(Fibre(units, StatKeyOfUnit(k), s), Worth(c));
    var cells := Column(t, c);
    forall s | s in stats ensures fibres(s) == cells(s) {
      TierShare(rows, k, s.tier, c);
      QueryCell(Champions, rows, s, c);
    }
    SumSame(stats, fibres, cells);
    assert Agg(rows, k, c) == Sum(units, Worth(c)) by {
      AggIsSum(rows, k, c);
    }
  }

  lemma AggIsSum(rows: set<Row>, k: Key, c: nat)
    ensures Agg(rows, k, c) == Sum(Units(rows, k, c), Worth(c))
  {}

  /** A unit of a totals row is counted in one of its stats rows. */
  lemma {:induction false} UnitHasStat(rows: set<Row>, k: Key, c: nat, u: Unit)
    requires k.StatTotal? && u in Units(rows, k, c)
    ensures StatKeyOfUnit(k)(u) in StatRows(Direct(Champions, rows), k)
  {
    hide Keys, KeysOfRow, Vector;
    var r :| r in rows && InGroup(r, k) && u == UnitOf(r, k, c);
    var s := Tiered(k, r.tier.value);
    assert InGroup(r, s);
    HasGroup(rows, r, s);
    KeysAreGroups(Champions, rows, s);
  }

  /** A step's whole result is its selected rows and, for the champions, their totals. */
  lemma {:induction false} TotalsComplete(s: Step, rows: set<Row>)
    ensures Query(s, rows) == if s == Champions then Direct(s, rows) + TotalsFrom(Direct(s, rows)) else Direct(s, rows)
  {
    hide Keys, Units, Agg;
    if s == Champions {
      var d := Direct(s, rows);
      var whole := d + TotalsFrom(d);
      forall k ensures k in whole <==> k in Query(s, rows) {
        if k.StatTotal? {
          TotalKeys(rows, k);
        }
      }
      forall k | k in whole ensures whole[k] == Query(s, rows)[k] {
        if k.StatTotal? {
          forall c | 0 <= c < 12 ensures whole[k][c] == Query(s, rows)[k][c] {
            TotalsAreUntiered(rows, k, c);
          }
        }
      }
    } else {
      forall k | k in Query(s, rows) ensures !k.StatTotal? {
        KeysAreGroups(s, rows, k);
      }
    }
  }

  lemma {:induction false} TotalKeys(rows: set<Row>, k: Key)
    requires k.StatTotal?
    ensures k in TotalsFrom(Direct(Champions, rows)) <==> k in Query(Champions, rows)
  {
    hide Keys, Units, InGroup, TotalVector, Vector;
    var d := Direct(Champions, rows);
    KeysAreGroups(Champions, rows, k);
    if k in TotalsFrom(d) {
      var s :| s in d && s.Stat? && Untiered(s) == k;
      KeysAreGroups(Champions, rows, s);
      var r := SomeRow(rows, s);
      SameButTier(r, s);
      HasGroup(rows, r, k);
    }
    if k in Query(Champions, rows) {
      var r := SomeRow(rows, k);
      var s := TieredBy(r, k);
      HasGroup(rows, r, s);
      KeysAreGroups(Champions, rows, s);
      assert s in d && Untiered(s) == k;
    }
  }

  /** A group that is not empty has a row in it. */
  lemma {:induction false} SomeRow(rows: set<Row>, k: Key) returns (r: Row)
    requires !k.Versus? && Units(rows, k, 0) != {}
    ensures r in rows && InGroup(r, k)
  {
    hide InGroup;
    r :| r in rows && InGroup(r, k);
  }

  lemma {:induction false} HasGroup(rows: set<Row>, r: Row, k: Key)
    requires !k.Versus? && r in rows && InGroup(r, k)
    ensures Units(rows, k, 0) != {}
  {
    hide InGroup;
    assert UnitOf(r, k, 0) in Units(rows, k, 0);
  }

  lemma SameButTier(r: Row, s: Key)
    requires s.Stat? && InGroup(r, s)
    ensures InGroup(r, Untiered(s))
  {}

  lemma {:induction false} TieredBy(r: Row, k: Key) returns (s: Key)
    requires k.StatTotal? && InGroup(r, k)
    ensures s.Stat? && Untiered(s) == k && InGroup(r, s)
  {
    s := Tiered(k, r.tier.value);
  }
}
