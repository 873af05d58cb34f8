/**
 The analytics tables of one ladder (one key scope, platform and queue): the
 joined fact rows a step's statements read, the key of every row of every
 table, and, for each summed column of each row, the things it counts.

 Every column is a sum over a set of `Unit`s: a player for `count(*)` and
 `sum(x)`, a match for `count(DISTINCT match_id)`, a pair of laners for the
 matchups. Reading a column that way turns every statement about tables into one
 about sets.
 */
module Tables {
  import opened Wrappers
  import opened Sums

  /** Match ids, numbered in their text order. */
  type MatchId = nat
  type Puuid = string
  type Patch = string

  datatype Tier =
    | Iron | Bronze | Silver | Gold | Platinum | Emerald | Diamond
    | Master | Grandmaster | Challenger
    | Unknown

  /** The `floors(rank, tier)` table: Riot's ten tiers, lowest first. */
  const FLOORS: set<Tier> :=
    {Iron, Bronze, Silver, Gold, Platinum, Emerald, Diamond, Master, Grandmaster, Challenger}

  /** -1 for `UNKNOWN`, which joins no floor. */
  function Rank(t: Tier): int {
    match t
    case Iron => 0 case Bronze => 1 case Silver => 2 case Gold => 3 case Platinum => 4
    case Emerald => 5 case Diamond => 6 case Master => 7 case Grandmaster => 8 case Challenger => 9
    case Unknown => -1
  }

  predicate AtOrAbove(t: Tier, floor: Tier) {
    t in FLOORS && floor in FLOORS && Rank(floor) <= Rank(t)
  }

  datatype Side = Blue | Red

  /** The six rebuild steps; a match's `bits` is the set of those that count it. */
  datatype Step = Champions | Matchups | Items | Runes | Spells | Sets

  const STEPS: seq<Step> := [Champions, Matchups, Items, Runes, Spells, Sets]
  const ALL_STEPS: set<Step> := {Champions, Matchups, Items, Runes, Spells, Sets}

  lemma EveryStep(s: Step)
    ensures s in ALL_STEPS
  {}

  /** Tables whose rows carry one more value, read out of a fact's or a build's JSON. */
  datatype Facet =
    | ChampionItems | ChampionRunes | ChampionSpells
    | ChampionBuilds | ChampionBuildParts
    | ChampionMatchups | ChampionMatchupBuilds | ChampionMatchupBuildParts

  type Facets = map<Facet, set<string>>

  datatype Ban = Ban(team: int, pickTurn: int, champion: int)

  /** A `matches` row with its `match_bans`. */
  datatype MatchInfo = MatchInfo(
    patch: Patch, remake: Option<bool>, duration: Option<int>, bans: set<Ban>, version: Option<int>)

  /** A `match_facts` row without its key and tier. */
  datatype Columns = Columns(
    team: int, position: Option<string>, champion: int, win: bool,
    kills: Option<int>, deaths: Option<int>, assists: Option<int>,
    cs: Option<int>, gold: Option<int>, damage: Option<int>, vision: Option<int>,
    facets: Facets)

  /** A fact joined to its match (and, for the set builds, to its `match_builds` row). */
  datatype Row = Row(
    mid: MatchId, puuid: Puuid, info: MatchInfo, cols: Columns, builds: Facets, tier: Option<Tier>)

  function Coalesce(x: Option<int>): int {
    match x case None => 0 case Some(n) => n
  }

  function Remake(r: Row): bool {
    r.info.remake == Some(true)
  }

  function Role(r: Row): string {
    match r.cols.position case None => "" case Some(p) => p
  }

  function SideOf(r: Row): Side {
    if r.cols.team == 100 then Blue else Red
  }

  /** `ladder_facts`' filter on the fact itself. */
  predicate Stamped(r: Row) {
    r.tier.Some? && (r.cols.team == 100 || r.cols.team == 200)
  }

  predicate Banned(r: Row, champion: int) {
    exists b | b in r.info.bans :: b.champion == champion
  }

  /** The key of a row of one of the step's tables. */
  datatype Key =
    // champions
    | Slice(tier: Tier, patch: Patch, remake: bool)
    | MatchTotal(patch: Patch, remake: bool)
    | Stat(tier: Tier, patch: Patch, champion: int, role: string, remake: bool, side: Side)
    | StatTotal(patch: Patch, champion: int, role: string, remake: bool, side: Side)
    | BanCount(tier: Tier, patch: Patch, champion: int, remake: bool)
    | BanTotal(patch: Patch, champion: int, remake: bool)
    | FloorTotal(floor: Tier, patch: Patch, remake: bool)
    | BanFloorTotal(floor: Tier, patch: Patch, champion: int, remake: bool)
    // items, runes, spells, set builds and their parts
    | Solo(facet: Facet, patch: Patch, champion: int, role: string, value: string, remake: bool, tier: Tier, side: Side)
    // matchups, and set builds against one lane opponent
    | Versus(facet: Facet, patch: Patch, champion: int, role: string, opponent: int, value: string,
             remake: bool, tier: Tier, side: Side)

  function StepOfFacet(f: Facet): Step {
    match f
    case ChampionItems => Items
    case ChampionRunes => Runes
    case ChampionSpells => Spells
    case ChampionMatchups => Matchups
    case _ => Sets
  }

  predicate IsVersus(f: Facet) {
    f.ChampionMatchups? || f.ChampionMatchupBuilds? || f.ChampionMatchupBuildParts?
  }

  function StepOf(k: Key): Step {
    if k.Solo? || k.Versus? then StepOfFacet(k.facet) else Champions
  }

  /** The summed columns of a row. */
  function Width(k: Key): nat {
    if k.Stat? || k.StatTotal? then 12 else if k.Solo? || k.Versus? then 2 else 1
  }

  function Get(fs: Facets, f: Facet): set<string> {
    if f in fs then fs[f] else {}
  }

  /** The values a player adds to a facet's table; a lane matchup has no value of its own. */
  function Values(r: Row, f: Facet): set<string> {
    if f.ChampionMatchups? then {""}
    else if StepOfFacet(f) == Sets then Get(r.builds, f)
    else Get(r.cols.facets, f)
  }

  /** `r` is in the group `k`: the statement's WHERE and its GROUP BY together. */
  predicate InGroup(r: Row, k: Key)
    requires !k.Versus?
  {
    && Stamped(r)
    && r.info.patch == k.patch
    && Remake(r) == k.remake
    && match k
       case Slice(t, _, _) => r.tier.value == t
       case MatchTotal(_, _) => true
       case Stat(t, _, ch, ro, _, s) => r.tier.value == t && r.cols.champion == ch && Role(r) == ro && SideOf(r) == s
       case StatTotal(_, ch, ro, _, s) => r.cols.champion == ch && Role(r) == ro && SideOf(r) == s
       case BanCount(t, _, ch, _) => r.tier.value == t && Banned(r, ch)
       case BanTotal(_, ch, _) => Banned(r, ch)
       case FloorTotal(fl, _, _) => AtOrAbove(r.tier.value, fl)
       case BanFloorTotal(fl, _, ch, _) => AtOrAbove(r.tier.value, fl) && Banned(r, ch)
       case Solo(f, _, ch, ro, v, _, t, s) =>
         !IsVersus(f) && r.cols.champion == ch && Role(r) == ro && v in Values(r, f) && r.tier.value == t && SideOf(r) == s
  }

  /** The lane's head count, taken from every laned fact, stamped or not. */
  function Heads(rows: set<Row>, a: Row): set<Row> {
    set r | r in rows && r.mid == a.mid && r.cols.team == a.cols.team && r.cols.position == a.cols.position
  }

  /** `one_on_one`: a stamped laner and the other team's only player in its lane. */
  predicate Duelling(rows: set<Row>, a: Row, b: Row) {
    && a in rows && b in rows
    && a.mid == b.mid
    && a.cols.position.Some? && a.cols.position == b.cols.position
    && a.cols.team != b.cols.team
    && |Heads(rows, a)| == 1 && |Heads(rows, b)| == 1
    && a.cols.champion != b.cols.champion
    && Stamped(a)
  }

  predicate InDuelGroup(a: Row, b: Row, k: Key)
    requires k.Versus?
  {
    && IsVersus(k.facet)
    && Stamped(a)
    && a.info.patch == k.patch && Remake(a) == k.remake
    && a.cols.champion == k.champion && Role(a) == k.role && b.cols.champion == k.opponent
    && k.value in Values(a, k.facet)
    && a.tier.value == k.tier && SideOf(a) == k.side
  }

  /** One thing a column counts. */
  datatype Unit =
    | ByMatch(mid: MatchId)
    | ByTier(tier: Tier, mid: MatchId)
    | Player(row: Row)
    | Duel(a: Row, b: Row)

  function UnitMatch(u: Unit): MatchId {
    match u
    case ByMatch(m) => m
    case ByTier(_, m) => m
    case Player(r) => r.mid
    case Duel(a, _) => a.mid
  }

  /** What a column of group `k` counts `r` as. `matches_picked` summed over tier counts a match once per tier. */
  function UnitOf(r: Row, k: Key, c: nat): Unit
    requires !k.Versus? && InGroup(r, k)
  {
    match k
    case Stat(_, _, _, _, _, _) => if c == 2 then ByMatch(r.mid) else Player(r)
    case StatTotal(_, _, _, _, _) => if c == 2 then ByTier(r.tier.value, r.mid) else Player(r)
    case Solo(_, _, _, _, _, _, _, _) => Player(r)
    case _ => ByMatch(r.mid)
  }

  function Units(rows: set<Row>, k: Key, c: nat): set<Unit> {
    if k.Versus? then
      set a, b | a in rows && b in rows && Duelling(rows, a, b) && InDuelGroup(a, b, k) :: Duel(a, b)
    else
      set r | r in rows && InGroup(r, k) :: UnitOf(r, k, c)
  }

  function Count(b: bool): int {
    if b then 1 else 0
  }

  /** A stats column of one player, in `champion_stats`' order. */
  function Measure(r: Row, c: nat): int {
    match c
    case 1 => Count(r.cols.win)
    case 3 => Count(r.cols.kills.Some?)
    case 4 => Coalesce(r.cols.kills)
    case 5 => Coalesce(r.cols.deaths)
    case 6 => Coalesce(r.cols.assists)
    case 7 => Coalesce(r.cols.cs)
    case 8 => Coalesce(r.cols.gold)
    case 9 => Coalesce(r.cols.damage)
    case 10 => Coalesce(r.cols.vision)
    case 11 => if r.cols.kills.Some? then Coalesce(r.info.duration) else 0
    case _ => 1
  }

  /** What one unit adds to column `c`. */
  function Worth(c: nat): Unit -> int {
    (u: Unit) =>
      match u
      case ByMatch(_) => 1
      case ByTier(_, _) => 1
      case Player(r) => Measure(r, c)
      case Duel(a, _) => if c == 1 then Count(a.cols.win) else 1
  }

  /** Column `c` of row `k` of the statement's GROUP BY over `rows`. */
  ghost function Agg(rows: set<Row>, k: Key, c: nat): int {
    Sum(Units(rows, k, c), Worth(c))
  }

  function PlainKeys(r: Row, t: Tier): set<Key> {
    {Slice(t, r.info.patch, Remake(r)), MatchTotal(r.info.patch, Remake(r)),
     Stat(t, r.info.patch, r.cols.champion, Role(r), Remake(r), SideOf(r)),
     StatTotal(r.info.patch, r.cols.champion, Role(r), Remake(r), SideOf(r))}
  }

  function BanKeys(r: Row, t: Tier): set<Key> {
    (set b | b in r.info.bans :: BanCount(t, r.info.patch, b.champion, Remake(r)))
    + (set b | b in r.info.bans :: BanTotal(r.info.patch, b.champion, Remake(r)))
  }

  function FloorKeys(r: Row, t: Tier): set<Key> {
    (set fl | fl in FLOORS && AtOrAbove(t, fl) :: FloorTotal(fl, r.info.patch, Remake(r)))
    + (set fl, b | fl in FLOORS && b in r.info.bans && AtOrAbove(t, fl) ::
         BanFloorTotal(fl, r.info.patch, b.champion, Remake(r)))
  }

  function SoloKeys(s: Step, r: Row, t: Tier): set<Key> {
    set f, v | f in SOLO_FACETS && StepOfFacet(f) == s && v in Values(r, f) ::
      Solo(f, r.info.patch, r.cols.champion, Role(r), v, Remake(r), t, SideOf(r))
  }

  /** The groups one fact is in. */
  function KeysOfRow(s: Step, r: Row): set<Key> {
    if !Stamped(r) then {}
    else if s == Champions then
      PlainKeys(r, r.tier.value) + BanKeys(r, r.tier.value) + FloorKeys(r, r.tier.value)
    else
      SoloKeys(s, r, r.tier.value)
  }

  const SOLO_FACETS: set<Facet> := {ChampionItems, ChampionRunes, ChampionSpells, ChampionBuilds, ChampionBuildParts}
  const VERSUS_FACETS: set<Facet> := {ChampionMatchups, ChampionMatchupBuilds, ChampionMatchupBuildParts}

  function KeysOfDuel(s: Step, a: Row, b: Row): set<Key> {
    if !Stamped(a) then {} else
      set f, v | f in VERSUS_FACETS && StepOfFacet(f) == s && v in Values(a, f) ::
        Versus(f, a.info.patch, a.cols.champion, Role(a), b.cols.champion, v, Remake(a), a.tier.value, SideOf(a))
  }

  /** Every group of step `s` over `rows`. */
  function Keys(s: Step, rows: set<Row>): set<Key> {
    (set r, k | r in rows && k in KeysOfRow(s, r) :: k)
    + (set a, b, k | a in rows && b in rows && Duelling(rows, a, b) && k in KeysOfDuel(s, a, b) :: k)
  }

  type Table = map<Key, seq<int>>

  /** The rows a step's statements select: what a rebuild of `rows` writes. */
  ghost function Query(s: Step, rows: set<Row>): Table {
    map k | k in Keys(s, rows) :: Vector(rows, k)
  }

  /** The summed columns of one group. */
  ghost function Vector(rows: set<Row>, k: Key): seq<int> {
    seq(Width(k), (c: nat) => Agg(rows, k, c))
  }

  /** A table's column, 0 where it has no such row. */
  function Cell(t: Table, k: Key, c: nat): int {
    if k in t && c < |t[k]| then t[k][c] else 0
  }

  /** The part of a database's tables that one step owns. */
  function Part(t: Table, s: Step): Table {
    map k | k in t && StepOf(k) == s :: t[k]
  }

  lemma PlainKeysAreGroups(r: Row, k: Key)
    requires Stamped(r)
    ensures k in PlainKeys(r, r.tier.value) <==>
              (k.Slice? || k.MatchTotal? || k.Stat? || k.StatTotal?) && InGroup(r, k)
  {}

  lemma {:induction false} BanKeysAreGroups(r: Row, k: Key)
    requires Stamped(r)
    ensures k in BanKeys(r, r.tier.value) <==> (k.BanCount? || k.BanTotal?) && InGroup(r, k)
  {
    if (k.BanCount? || k.BanTotal?) && InGroup(r, k) {
      var b :| b in r.info.bans && b.champion == k.champion;
    }
  }

  lemma {:induction false} FloorKeysAreGroups(r: Row, k: Key)
    requires Stamped(r)
    ensures k in FloorKeys(r, r.tier.value) <==> (k.FloorTotal? || k.BanFloorTotal?) && InGroup(r, k)
  {
    if k.BanFloorTotal? && InGroup(r, k) {
      var b :| b in r.info.bans && b.champion == k.champion;
    }
  }

  lemma SoloKeysAreGroups(s: Step, r: Row, k: Key)
    requires Stamped(r)
    ensures k in SoloKeys(s, r, r.tier.value) <==> k.Solo? && StepOf(k) == s && InGroup(r, k)
  {}

  lemma {:induction false} KeysOfRowAreGroups(s: Step, r: Row, k: Key)
    ensures k in KeysOfRow(s, r) <==> !k.Versus? && StepOf(k) == s && InGroup(r, k)
  {
    if Stamped(r) {
      PlainKeysAreGroups(r, k);
      BanKeysAreGroups(r, k);
      FloorKeysAreGroups(r, k);
      SoloKeysAreGroups(s, r, k);
    }
  }

  lemma KeysOfDuelAreGroups(s: Step, a: Row, b: Row, k: Key)
    ensures k in KeysOfDuel(s, a, b) <==> k.Versus? && StepOf(k) == s && InDuelGroup(a, b, k)
  {}

  /** The groups of a step are exactly the keys that count something. */
  lemma {:induction false} KeysAreGroups(s: Step, rows: set<Row>, k: Key)
    ensures k in Keys(s, rows) <==> StepOf(k) == s && Units(rows, k, 0) != {}
  {
    if k in Keys(s, rows) {
      if r :| r in rows && k in KeysOfRow(s, r) {
        KeysOfRowAreGroups(s, r, k);
        assert UnitOf(r, k, 0) in Units(rows, k, 0);
      } else {
        var a, b :| a in rows && b in rows && Duelling(rows, a, b) && k in KeysOfDuel(s, a, b);
        KeysOfDuelAreGroups(s, a, b, k);
        assert Duel(a, b) in Units(rows, k, 0);
      }
    }
    if StepOf(k) == s && Units(rows, k, 0) != {} {
      var u :| u in Units(rows, k, 0);
      if k.Versus? {
        var a, b :| a in rows && b in rows && Duelling(rows, a, b) && InDuelGroup(a, b, k);
        KeysOfDuelAreGroups(s, a, b, k);
      } else {
        var r :| r in rows && InGroup(r, k);
        KeysOfRowAreGroups(s, r, k);
      }
    }
  }

  /** A group with nothing in its first column has nothing in any. */
  lemma {:induction false} EmptyGroup(rows: set<Row>, k: Key, c: nat)
    ensures Units(rows, k, 0) == {} <==> Units(rows, k, c) == {}
  {
    hide InGroup, InDuelGroup, Duelling, Stamped;
    if u :| u in Units(rows, k, 0) {
      if !k.Versus? {
        var r :| r in rows && InGroup(r, k);
        assert UnitOf(r, k, c) in Units(rows, k, c);
      }
    }
    if u :| u in Units(rows, k, c) {
      if !k.Versus? {
        var r :| r in rows && InGroup(r, k);
        assert UnitOf(r, k, 0) in Units(rows, k, 0);
      }
    }
  }

  /** The first column counts its units one each, so it is positive exactly on the groups. */
  lemma {:induction false} CountColumn(rows: set<Row>, k: Key)
    ensures Agg(rows, k, 0) == |Units(rows, k, 0)|
    ensures k in Keys(StepOf(k), rows) <==> Agg(rows, k, 0) > 0
  {
    SumConst(Units(rows, k, 0), Worth(0), 1);
    KeysAreGroups(StepOf(k), rows, k);
  }

  lemma {:induction false} ZeroOutsideGroups(rows: set<Row>, k: Key, c: nat)
    requires k !in Keys(StepOf(k), rows)
    ensures Agg(rows, k, c) == 0
  {
    KeysAreGroups(StepOf(k), rows, k);
    EmptyGroup(rows, k, c);
  }

  /** A cell of a step's result is its column, whether or not the group is there. */
  lemma {:induction false} QueryCell(s: Step, rows: set<Row>, k: Key, c: nat)
    requires StepOf(k) == s && c < Width(k)
    ensures Cell(Query(s, rows), k, c) == Agg(rows, k, c)
  {
    if k !in Keys(s, rows) {
      ZeroOutsideGroups(rows, k, c);
    }
  }
}
