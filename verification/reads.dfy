/**
 The analytics reads: a filter left open becomes an `IN` over the values the
 slices have, a read of every tier goes to the totals over tier, and sums are
 taken in two levels. None of that changes an answer.
 */
module Reads {
  import opened Wrappers
  import opened Sums
  import opened Tables
  import opened Aggregates
  import opened Ladder

  type Platform = string

  /** The tables of every ladder of one key scope and queue. */
  type Ladders = map<Platform, Table>

  datatype TierFilter = Any | One(tier: Tier) | From(floor: Tier)

  datatype Read = Read(
    platform: Option<Platform>, patch: Option<Patch>, tier: TierFilter, side: Option<Side>, role: Option<string>,
    champion: Option<int>, opponent: Option<int>, remakes: bool)

  datatype Domain = Domain(platforms: set<Platform>, tiers: set<Tier>, patches: set<Patch>)

  /** A row of one ladder's tables. */
  datatype Ref = Ref(platform: Platform, key: Key)

  const TIERS: seq<Tier> :=
    [Iron, Bronze, Silver, Gold, Platinum, Emerald, Diamond, Master, Grandmaster, Challenger]

  /** `tiers_at_or_above`: the tiers, lowest first, from the floor on. */
  function SkipTo(tiers: seq<Tier>, floor: Tier): seq<Tier> {
    if tiers == [] || tiers[0] == floor then tiers else SkipTo(tiers[1..], floor)
  }

  /** The tiers are listed in order of rank. */
  predicate ByRank(tiers: seq<Tier>, low: int) {
    forall i | 0 <= i < |tiers| :: tiers[i] in FLOORS && Rank(tiers[i]) == low + i
  }

  lemma TiersByRank()
    ensures ByRank(TIERS, 0) && |TIERS| == 10
  {}

  lemma RankRange(t: Tier)
    ensures t in FLOORS <==> 0 <= Rank(t) < 10
    ensures forall u :: Rank(u) == Rank(t) ==> u == t
  {}

  lemma {:induction false} SkipsBelow(tiers: seq<Tier>, low: nat, t: Tier, floor: Tier)
    requires ByRank(tiers, low) && low + |tiers| == 10
    ensures t in SkipTo(tiers, floor) <==> low <= Rank(floor) <= Rank(t) && t in FLOORS
    decreases |tiers|
  {
    hide Rank;
    RankRange(t);
    RankRange(floor);
    if tiers == [] {
    } else if tiers[0] == floor {
      if t in FLOORS && Rank(floor) <= Rank(t) {
        assert Rank(tiers[Rank(t) - low]) == Rank(t);
      }
    } else {
      assert Rank(tiers[0]) == low;
      SkipsBelow(tiers[1..], low + 1, t, floor);
    }
  }

  /** A range is its tiers by rank; an unknown floor names none. */
  lemma {:induction false} RangeIsByRank(t: Tier, floor: Tier)
    ensures t in SkipTo(TIERS, floor) <==> AtOrAbove(t, floor)
  {
    hide SkipTo, Rank, ByRank;
    TiersByRank();
    SkipsBelow(TIERS, 0, t, floor);
    RankRange(t);
    RankRange(floor);
  }

  // ── The domain ────────────────────────────────────────────────────────────

  predicate AsksFor(r: Read, p: Platform) {
    r.platform.None? || r.platform.value == p
  }

  function SlicesOf(ls: Ladders, r: Read): set<Ref> {
    set p, k | p in ls && AsksFor(r, p) && k in ls[p] && k.Slice? :: Ref(p, k)
  }

  /** `domain`: the distinct platforms, tiers and patches of the slices a read asks for. */
  method ReadDomain(ls: Ladders, r: Read) returns (d: Domain)
    ensures d == DomainOf(ls, r)
  {
    var slices := SlicesOf(ls, r);
    var rest := slices;
    d := Domain({}, {}, {});
    while rest != {}
      invariant rest <= slices
      invariant d.platforms == set x | x in slices - rest :: x.platform
      invariant d.tiers == set x | x in slices - rest && x.key.Slice? :: x.key.tier
      invariant d.patches == set x | x in slices - rest :: x.key.patch
      decreases |rest|
    {
      var x :| x in rest;
      d := Domain(d.platforms + {x.platform}, d.tiers + {x.key.tier}, d.patches + {x.key.patch});
      rest := rest - {x};
    }
    assert slices - rest == slices;
  }

  function DomainOf(ls: Ladders, r: Read): Domain {
    var slices := SlicesOf(ls, r);
    Domain(set x | x in slices :: x.platform, set x | x in slices && x.key.Slice? :: x.key.tier, set x | x in slices :: x.key.patch)
  }

  // ── The filter ────────────────────────────────────────────────────────────

  predicate HasTier(k: Key) {
    k.Slice? || k.Stat? || k.BanCount? || k.Solo? || k.Versus?
  }

  predicate HasFloor(k: Key) {
    k.FloorTotal? || k.BanFloorTotal?
  }

  predicate HasRole(k: Key) {
    k.Stat? || k.StatTotal? || k.Solo? || k.Versus?
  }

  predicate HasChampion(k: Key) {
    HasRole(k) || k.BanCount? || k.BanTotal? || k.BanFloorTotal?
  }

  /** The set builds against one lane opponent, the only tables read by opponent. */
  predicate HasOpponent(k: Key) {
    k.Versus? && (k.facet.ChampionMatchupBuilds? || k.facet.ChampionMatchupBuildParts?)
  }

  const LANES: set<string> := {"TOP", "JUNGLE", "MIDDLE", "BOTTOM", "UTILITY"}

  /** `Filter::new`'s tier term. */
  predicate TierPasses(r: Read, d: Domain, k: Key) {
    if HasFloor(k) then r.tier.From? && k.floor == r.tier.floor
    else if !HasTier(k) then true
    else match r.tier
      case Any => k.Solo? || k.Versus? || k.tier in d.tiers
      case One(t) => k.tier == t
      case From(floor) => k.tier in d.tiers && k.tier in SkipTo(TIERS, floor)
  }

  /** The terms with nothing to stand in for them when open: remakes, side, champion and opponent. */
  predicate RestPasses(r: Read, k: Key) {
    && (k.remake ==> r.remakes)
    && (HasRole(k) && r.side.Some? ==> k.side == r.side.value)
    && (HasRole(k) && r.role.Some? ==> k.role == r.role.value)
    && (HasChampion(k) && r.champion.Some? ==> k.champion == r.champion.value)
    && (HasOpponent(k) && r.opponent.Some? ==> k.opponent == r.opponent.value)
  }

  /** An open role is an `IN` over the lanes where the key goes on to the opponent. */
  predicate LanePasses(r: Read, k: Key) {
    HasOpponent(k) && r.role.None? ==> k.role in LANES
  }

  /** `Filter::new`: an equality for a filter that is set, an `IN` over the domain for one left open. */
  predicate Passes(r: Read, d: Domain, x: Ref) {
    && (if r.platform.Some? then x.platform == r.platform.value else x.platform in d.platforms)
    && TierPasses(r, d, x.key)
    && (if r.patch.Some? then x.key.patch == r.patch.value else x.key.patch in d.patches)
    && RestPasses(r, x.key) && LanePasses(r, x.key)
  }

  /** What the read asks for: a filter left open filters nothing. */
  predicate Wanted(r: Read, x: Ref) {
    && AsksFor(r, x.platform)
    && (match r.tier
        case Any => !HasFloor(x.key)
        case One(t) => !HasFloor(x.key) && (HasTier(x.key) ==> x.key.tier == t)
        case From(floor) =>
          && (HasTier(x.key) ==> AtOrAbove(x.key.tier, floor))
          && (HasFloor(x.key) ==> x.key.floor == floor))
    && (r.patch.Some? ==> x.key.patch == r.patch.value)
    && RestPasses(r, x.key)
  }

  /** Each ladder's champion tables are right for what it has counted. */
  ghost predicate Right(ls: Ladders, rows: map<Platform, set<Row>>) {
    ls.Keys == rows.Keys && forall p | p in ls :: Part(ls[p], Champions) == Query(Champions, rows[p])
  }

  /** The row's tier and patch have a slice. */
  ghost predicate HasSlice(t: Table, k: Key) {
    exists slice | slice in t :: slice.Slice? && slice.patch == k.patch && (HasTier(k) ==> slice.tier == k.tier)
  }

  /** A stamped row a right table has counted has its slice. */
  lemma {:induction false} StampedHasSlice(t: Table, rows: set<Row>, r: Row)
    requires Part(t, Champions) == Query(Champions, rows) && r in rows && Stamped(r)
    ensures Slice(r.tier.value, r.info.patch, Remake(r)) in t
  {
    hide Keys, Units, KeysOfRow;
    var slice := Slice(r.tier.value, r.info.patch, Remake(r));
    HasGroup(rows, r, slice);
    KeysAreGroups(Champions, rows, slice);
    assert slice in Part(t, Champions);
  }

  /** Every row of the champion tables comes from a fact counted in a slice of its tier and patch. */
  lemma {:induction false} RowHasSlice(t: Table, rows: set<Row>, k: Key)
    requires Part(t, Champions) == Query(Champions, rows) && k in t && StepOf(k) == Champions
    ensures HasSlice(t, k)
  {
    hide Keys, Units, KeysOfRow;
    assert k in Part(t, Champions);
    KeysAreGroups(Champions, rows, k);
    var r := SomeRow(rows, k);
    StampedHasSlice(t, rows, r);
  }

  /** In a drained ladder so does every row of every other table: all steps count the same facts at the same tiers. */
  lemma {:induction false} DrainedRowHasSlice(db: Db, k: Key)
    requires Consistent(db) && Drained(db) && k in db.tables
    ensures HasSlice(db.tables, k)
  {
    hide Keys, Units, Query, CountedRows, Drained, InGroup;
    var s := StepOf(k);
    assert StepOk(db, s) && StepOk(db, Champions);
    if s == Champions {
      RowHasSlice(db.tables, CountedRows(db, s), k);
    } else {
      assert k in Part(db.tables, s);
      QueryHasGroup(s, CountedRows(db, s), k);
      var r := SomeRowOf(CountedRows(db, s), k);
      CountedByAll(db, s, r);
      StampedHasSlice(db.tables, CountedRows(db, Champions), r.(builds := map[]));
    }
  }

  lemma {:induction false} QueryHasGroup(s: Step, rows: set<Row>, k: Key)
    requires k in Query(s, rows)
    ensures Units(rows, k, 0) != {}
  {
    KeysAreGroups(s, rows, k);
  }

  /** A row of a group with a tier: a player, or the laner of a pair. */
  lemma {:induction false} SomeRowOf(rows: set<Row>, k: Key) returns (r: Row)
    requires Units(rows, k, 0) != {} && (k.Solo? || k.Versus?)
    ensures r in rows && Stamped(r) && r.info.patch == k.patch && r.tier.value == k.tier
  {
    if k.Versus? {
      var a, b :| a in rows && b in rows && Duelling(rows, a, b) && InDuelGroup(a, b, k);
      r := a;
    } else {
      r := SomeRow(rows, k);
    }
  }

  /** What one step of a drained ladder has counted, the champion step has too. */
  lemma {:induction false} CountedByAll(db: Db, s: Step, r: Row)
    requires Drained(db) && (forall fk | fk in db.facts :: fk.mid in db.counted) && s != Champions
    requires r in CountedRows(db, s)
    ensures r.(builds := map[]) in CountedRows(db, Champions)
  {
    InCountedRows(db, s, r);
    InCountedRows(db, Champions, r.(builds := map[]));
    EveryStep(Champions);
  }

  /**
   An open filter's `IN` over the domain takes away no row the read asks for, of any
   table. The `IN` over the lanes takes away only set builds against an opponent in
   a role that is no lane.
   */
  lemma {:induction false} PassesIsWanted(ls: Ladders, r: Read, x: Ref)
    requires x.platform in ls && HasSlice(ls[x.platform], x.key)
    ensures Passes(r, DomainOf(ls, r), x) <==> Wanted(r, x) && LanePasses(r, x.key)
  {
    hide SkipTo;
    var slice :| slice in ls[x.platform] && slice.Slice? && slice.patch == x.key.patch && (HasTier(x.key) ==> slice.tier == x.key.tier);
    var y := Ref(x.platform, slice);
    if AsksFor(r, x.platform) {
      assert y in SlicesOf(ls, r);
      assert y.platform in DomainOf(ls, r).platforms && y.key.tier in DomainOf(ls, r).tiers
        && y.key.patch in DomainOf(ls, r).patches;
    }
    if r.tier.From? && HasTier(x.key) {
      RangeIsByRank(x.key.tier, r.tier.floor);
    }
  }

  // ── Champion stats ────────────────────────────────────────────────────────

  function CellOf(ls: Ladders, c: nat): Ref -> int {
    (x: Ref) => if x.platform in ls then Cell(ls[x.platform], x.key, c) else 0
  }

  /** The columns a stats read first groups by. */
  datatype Group = Group(platform: Platform, tier: Option<Tier>, patch: Patch)

  function GroupOf(x: Ref): Group {
    Group(x.platform, if x.key.Stat? then Some(x.key.tier) else None, x.key.patch)
  }

  predicate UsesTotals(r: Read, byTier: Option<Tier>) {
    byTier.None? && r.tier.Any?
  }

  /** The rows of the table `stats_source` picks that pass the filter and are summed into one row of the answer. */
  function Scanned(ls: Ladders, r: Read, champion: int, byTier: Option<Tier>): set<Ref> {
    var d := DomainOf(ls, r);
    set p, k | p in ls && k in ls[p]
               && (if UsesTotals(r, byTier) then k.StatTotal? else k.Stat?)
               && k.champion == champion && (byTier.Some? ==> HasTier(k) && k.tier == byTier.value)
               && Passes(r, d, Ref(p, k)) :: Ref(p, k)
  }

  /** `stat_rows`: one champion's column, summed per platform and patch first unless a row per tier is wanted. */
  ghost function Answer(ls: Ladders, r: Read, champion: int, byTier: Option<Tier>, c: nat): int {
    var scanned := Scanned(ls, r, champion, byTier);
    if byTier.Some? then Sum(scanned, CellOf(ls, c)) else
      Sum(set x | x in scanned :: GroupOf(x), (g: Group) => Sum(Fibre(scanned, GroupOf, g), CellOf(ls, c)))
  }

  /** Every `champion_stats` row the read asks for. */
  function WantedStats(ls: Ladders, r: Read, champion: int, byTier: Option<Tier>): set<Ref> {
    set p, k | p in ls && k in ls[p] && k.Stat? && k.champion == champion && (byTier.Some? ==> k.tier == byTier.value)
               && Wanted(r, Ref(p, k)) :: Ref(p, k)
  }

  function UntieredRef(x: Ref): Ref {
    if x.key.Stat? then Ref(x.platform, Untiered(x.key)) else x
  }

  /** In a right table, a totals row is its tiers' stats rows summed. */
  lemma {:induction false} TotalIsSum(t: Table, rows: set<Row>, k: Key, c: nat)
    requires Part(t, Champions) == Query(Champions, rows) && k.StatTotal? && c < 12
    ensures Cell(t, k, c) == TotalCell(t, k, c)
    ensures k in t <==> StatRows(t, k) != {}
  {
    var part, d := Part(t, Champions), Direct(Champions, rows);
    assert k in t <==> k in part;
    forall s: Key | s.Stat? ensures (s in t <==> s in d) && Cell(t, s, c) == Cell(d, s, c) {
      assert s in t <==> s in part;
    }
    assert StatRows(t, k) == StatRows(d, k);
    SumSame(StatRows(t, k), Column(t, c), Column(d, c));
    TotalsAreUntiered(rows, k, c);
    QueryCell(Champions, rows, k, c);
    TotalKeys(rows, k);
    if s :| s in StatRows(d, k) {
      assert Untiered(s) in TotalsFrom(d);
    }
    if k in TotalsFrom(d) {
      var s :| s in d && s.Stat? && Untiered(s) == k;
      assert s in StatRows(d, k);
    }
  }

  /** A totals row scanned is worth the wanted stats rows it sums. */
  lemma {:induction false} ScannedTotal(ls: Ladders, rows: map<Platform, set<Row>>, r: Read, champion: int, c: nat, x: Ref)
    requires Right(ls, rows) && UsesTotals(r, None) && c < 12 && x in Scanned(ls, r, champion, None)
    ensures Sum(Fibre(WantedStats(ls, r, champion, None), UntieredRef, x), CellOf(ls, c)) == CellOf(ls, c)(x)
    ensures exists y :: y in WantedStats(ls, r, champion, None) && UntieredRef(y) == x
  {
    hide Query, DomainOf, Passes, Part;
    var t, k := ls[x.platform], x.key;
    TotalIsSum(t, rows[x.platform], k, c);
    RowHasSlice(t, rows[x.platform], k);
    PassesIsWanted(ls, r, x);
    var stats, fibre := StatRows(t, k), Fibre(WantedStats(ls, r, champion, None), UntieredRef, x);
    var h := (s: Key) => Ref(x.platform, s);
    forall s | s in stats ensures h(s) in fibre {
      assert Wanted(r, h(s));
    }
    forall y | y in fibre ensures exists s :: s in stats && h(s) == y {
      assert y.key in stats && h(y.key) == y;
    }
    SumImage(stats, fibre, h, CellOf(ls, c), Column(t, c));
    var s :| s in stats;
    assert h(s) in fibre;
  }

  lemma {:induction false} ScannedTotals(ls: Ladders, rows: map<Platform, set<Row>>, r: Read, champion: int, c: nat)
    requires Right(ls, rows) && UsesTotals(r, None) && c < 12
    ensures Sum(Scanned(ls, r, champion, None), CellOf(ls, c)) == Sum(WantedStats(ls, r, champion, None), CellOf(ls, c))
    ensures Scanned(ls, r, champion, None) == {} <==> WantedStats(ls, r, champion, None) == {}
  {
    hide Query, DomainOf, Passes, Part;
    var scanned, wanted := Scanned(ls, r, champion, None), WantedStats(ls, r, champion, None);
    forall x | x in wanted ensures UntieredRef(x) in scanned {
      var y := UntieredRef(x);
      TotalIsSum(ls[x.platform], rows[x.platform], y.key, c);
      assert x.key in StatRows(ls[x.platform], y.key);
      RowHasSlice(ls[x.platform], rows[x.platform], y.key);
      PassesIsWanted(ls, r, y);
    }
    SumFibres(wanted, scanned, UntieredRef, CellOf(ls, c));
    var fibres := (x: Ref) => Sum(Fibre(wanted, UntieredRef, x), CellOf(ls, c));
    forall x | x in scanned
      ensures fibres(x) == CellOf(ls, c)(x)
      ensures exists y :: y in wanted && UntieredRef(y) == x
    {
      ScannedTotal(ls, rows, r, champion, c, x);
    }
    SumSame(scanned, fibres, CellOf(ls, c));
    if y :| y in wanted {
      assert UntieredRef(y) in scanned;
    }
  }

  /**
   Every stats read answers what summing the `champion_stats` rows it asks for
   would, for the champions those rows have: the domain's `IN`s, the totals over
   tier and the two-level sum change nothing.
   */
  lemma {:induction false} AnswerIsPlainSum(
    ls: Ladders, rows: map<Platform, set<Row>>, r: Read, champion: int, byTier: Option<Tier>, c: nat)
    requires Right(ls, rows) && c < 12
    ensures Answer(ls, r, champion, byTier, c) == Sum(WantedStats(ls, r, champion, byTier), CellOf(ls, c))
    ensures Scanned(ls, r, champion, byTier) == {} <==> WantedStats(ls, r, champion, byTier) == {}
  {
    hide Query, DomainOf, Passes, Part;
    var scanned := Scanned(ls, r, champion, byTier);
    if byTier.None? {
      SumFibres(scanned, set x | x in scanned :: GroupOf(x), GroupOf, CellOf(ls, c));
      if UsesTotals(r, byTier) {
        ScannedTotals(ls, rows, r, champion, c);
      }
    }
    if !UsesTotals(r, byTier) {
      forall x: Ref | x.platform in ls && x.key in ls[x.platform] && x.key.Stat?
        ensures Passes(r, DomainOf(ls, r), x) <==> Wanted(r, x)
      {
        RowHasSlice(ls[x.platform], rows[x.platform], x.key);
        PassesIsWanted(ls, r, x);
      }
      assert scanned == WantedStats(ls, r, champion, byTier);
    }
  }

  /** A row of an answer: a champion, and its tier when rows are per tier. */
  datatype RowKey = RowKey(champion: int, tier: Option<Tier>)

  /** The groups `stat_rows` returns: those with a row, and with games enough for `HAVING`. */
  ghost predicate Returned(ls: Ladders, r: Read, minGames: int, k: RowKey) {
    Scanned(ls, r, k.champion, k.tier) != {} && Answer(ls, r, k.champion, k.tier, 0) >= minGames
  }

  /** The rows that come back are those a plain sum of the stats would give, with its columns. */
  lemma {:induction false} SameRowsComeBack(ls: Ladders, rows: map<Platform, set<Row>>, r: Read, minGames: int, k: RowKey)
    requires Right(ls, rows)
    ensures Returned(ls, r, minGames, k) <==>
            && WantedStats(ls, r, k.champion, k.tier) != {}
            && Sum(WantedStats(ls, r, k.champion, k.tier), CellOf(ls, 0)) >= minGames
    ensures forall c | 0 <= c < 12 ::
              Answer(ls, r, k.champion, k.tier, c) == Sum(WantedStats(ls, r, k.champion, k.tier), CellOf(ls, c))
  {
    hide Answer, Scanned, WantedStats, Right;
    forall c | 0 <= c < 12
      ensures Answer(ls, r, k.champion, k.tier, c) == Sum(WantedStats(ls, r, k.champion, k.tier), CellOf(ls, c))
    {
      AnswerIsPlainSum(ls, rows, r, k.champion, k.tier, c);
    }
    AnswerIsPlainSum(ls, rows, r, k.champion, k.tier, 0);
  }
}
