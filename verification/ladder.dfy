/**
 One ladder's incremental analytics as a state machine: its facts, which rebuild
 steps count each match (`analytics_counted`), the tiers moved players were
 counted at (`analytics_retract`), whether deltas may run (`analytics_stamped`),
 and its tables. Each transition is one committed transaction.
 */
module Ladder {
  import opened Wrappers
  import opened Tables

  const FACTS_VERSION := 4

  datatype FactKey = FactKey(mid: MatchId, puuid: Puuid)
  datatype Fact = Fact(cols: Columns, tier: Option<Tier>)
  datatype RetractKey = RetractKey(mid: MatchId, puuid: Puuid, step: Step)

  datatype Db = Db(
    matches: map<MatchId, MatchInfo>,
    facts: map<FactKey, Fact>,
    builds: map<FactKey, Facets>,
    counted: map<MatchId, set<Step>>,
    retract: map<RetractKey, Option<Tier>>,
    tables: Table,
    stampedAt: Option<int>,
    dirtyAt: Option<int>)

  // ── Rows ──────────────────────────────────────────────────────────────────

  function Bits(db: Db, m: MatchId): set<Step> {
    if m in db.counted then db.counted[m] else {}
  }

  predicate Joined(db: Db, fk: FactKey) {
    fk in db.facts && fk.mid in db.matches
  }

  /** A fact as step `s` reads it, at a given tier. Only the set builds join `match_builds`. */
  function RowAt(db: Db, s: Step, fk: FactKey, tier: Option<Tier>): Row
    requires Joined(db, fk)
  {
    Row(fk.mid, fk.puuid, db.matches[fk.mid], db.facts[fk].cols,
        if s == Sets && fk in db.builds then db.builds[fk] else map[], tier)
  }

  /** The tier step `s` counted a player at: their retract row's, else their tier now. */
  function CountedTier(db: Db, s: Step, fk: FactKey): Option<Tier>
    requires fk in db.facts
  {
    var rk := RetractKey(fk.mid, fk.puuid, s);
    if rk in db.retract then db.retract[rk] else db.facts[fk].tier
  }

  /** What step `s` has counted: the facts of the matches with its bit, at the tiers it counted. */
  function CountedRows(db: Db, s: Step): set<Row> {
    set fk | fk in db.facts && Joined(db, fk) && s in Bits(db, fk.mid) :: RowAt(db, s, fk, CountedTier(db, s, fk))
  }

  /** The facts of some matches as they are now. */
  function RowsNow(db: Db, s: Step, ms: set<MatchId>): set<Row> {
    set fk | fk in db.facts && Joined(db, fk) && fk.mid in ms :: RowAt(db, s, fk, db.facts[fk].tier)
  }

  // ── Writes to the archive ─────────────────────────────────────────────────

  /**
   `write_derived`: the match row, its facts (a player's tier stamp is kept, a
   player no longer in the body loses their row) and its `analytics_counted` row.
   Rewriting a counted match whose facts were of an older version makes the ladder
   dirty.
   */
  function WriteFacts(db: Db, m: MatchId, info: MatchInfo, facts: map<Puuid, Columns>, now: int): Db {
    db.(matches := db.matches[m := info.(version := Some(FACTS_VERSION))],
        facts := WrittenFacts(db.facts, m, facts),
        counted := if m in db.counted then db.counted else db.counted[m := {}],
        dirtyAt := if Rewrites(db, m) then Some(now) else db.dirtyAt)
  }

  function WrittenFacts(facts: map<FactKey, Fact>, m: MatchId, rows: map<Puuid, Columns>): map<FactKey, Fact> {
    (map fk | fk in facts && fk.mid != m :: facts[fk])
    + (map p | p in rows :: FactKey(m, p) := Fact(rows[p], TierIn(facts, FactKey(m, p))))
  }

  function TierIn(facts: map<FactKey, Fact>, fk: FactKey): Option<Tier> {
    if fk in facts then facts[fk].tier else None
  }

  predicate Current(db: Db, m: MatchId) {
    m in db.matches && db.matches[m].version.Some? && db.matches[m].version.value >= FACTS_VERSION
  }

  /** Writing `m`'s facts replaces facts of an older version that some step has counted. */
  predicate Rewrites(db: Db, m: MatchId) {
    !Current(db, m) && Bits(db, m) != {}
  }

  /** An update of a fact's tier, with the trigger: each step that counts the match keeps the first tier it saw. */
  function MoveTier(db: Db, fk: FactKey, tier: Option<Tier>): Db {
    if fk !in db.facts then db else
      var was := db.facts[fk];
      db.(facts := db.facts[fk := was.(tier := tier)],
          retract := if was.tier == tier then db.retract else Remembered(db.retract, fk, Bits(db, fk.mid), was.tier))
  }

  /** `INSERT OR IGNORE` of a retract row per counting step. */
  function Remembered(
    retract: map<RetractKey, Option<Tier>>, fk: FactKey, bits: set<Step>, tier: Option<Tier>): map<RetractKey, Option<Tier>>
  {
    (map s | s in bits :: RetractKey(fk.mid, fk.puuid, s) := tier) + retract
  }

  predicate HasBuilds(db: Db, m: MatchId) {
    exists fk | fk in db.builds :: fk.mid == m
  }

  /** `builds::write` with `on_builds_written`: first rows clear the set-build bit, replaced rows dirty the ladder. */
  function WriteBuilds(db: Db, m: MatchId, rows: map<Puuid, Facets>, now: int): Db {
    var built := db.(builds := ReplacedBuilds(db.builds, m, rows));
    if !HasBuilds(db, m) then
      built.(counted := WithoutSets(db.counted, m), retract := ForgottenSets(db.retract, m))
    else if Sets in Bits(db, m) then built.(dirtyAt := Some(now))
    else built
  }

  /** The set-build bit of a match cleared. */
  function WithoutSets(counted: map<MatchId, set<Step>>, m: MatchId): map<MatchId, set<Step>> {
    if m in counted then counted[m := counted[m] - {Sets}] else counted
  }

  function ForgottenSets(retract: map<RetractKey, Option<Tier>>, m: MatchId): map<RetractKey, Option<Tier>> {
    map rk | rk in retract && !(rk.mid == m && rk.step == Sets) :: retract[rk]
  }

  function ReplacedBuilds(builds: map<FactKey, Facets>, m: MatchId, rows: map<Puuid, Facets>): map<FactKey, Facets> {
    (map fk | fk in builds && fk.mid != m :: builds[fk]) + (map p | p in rows :: FactKey(m, p) := rows[p])
  }

  // ── Rebuild ───────────────────────────────────────────────────────────────

  predicate InScope(patches: Option<set<Patch>>, p: Patch) {
    patches.None? || p in patches.value
  }

  function ScopeMatches(db: Db, patches: Option<set<Patch>>): set<MatchId> {
    set m | m in db.matches && InScope(patches, db.matches[m].patch)
  }

  predicate HasFacts(db: Db, m: MatchId) {
    exists fk | fk in db.facts :: fk.mid == m
  }

  function Stamp(db: Db, s: Step, ms: set<MatchId>): Db {
    db.(counted := db.counted + (map m | m in ms && HasFacts(db, m) :: Bits(db, m) + {s}),
        retract := map rk | rk in db.retract && !(rk.step == s && rk.mid in ms) :: db.retract[rk])
  }

  /** `rebuild_step`: clear the step's tables for the scope, write them from every fact, stamp what it counted. */
  ghost function RebuildStep(db: Db, s: Step, patches: Option<set<Patch>>): Db {
    var ms := ScopeMatches(db, patches);
    Stamp(db.(tables := Cleared(db.tables, s, patches) + Query(s, RowsNow(db, s, ms))), s, ms)
  }

  /** A step's tables with the scope's rows deleted. */
  function Cleared(t: Table, s: Step, patches: Option<set<Patch>>): Table {
    map k | k in t && !(StepOf(k) == s && InScope(patches, k.patch)) :: t[k]
  }

  /** `mark_stamped`: a full rebuild begun at `started` covers the ladder, unless it was made dirty since. */
  function MarkStamped(db: Db, started: int, now: int): Db {
    if db.dirtyAt.None? || db.dirtyAt.value < started then db.(stampedAt := Some(now), dirtyAt := None) else db
  }

  predicate Ready(db: Db) {
    db.stampedAt.Some? && db.dirtyAt.None?
  }

  // ── The delta ─────────────────────────────────────────────────────────────

  predicate Moved(db: Db, m: MatchId, s: Step) {
    exists rk | rk in db.retract :: rk.mid == m && rk.step == s
  }

  /** `sub & bit`: a count of the batch to take back. */
  predicate Sub(db: Db, batch: set<MatchId>, m: MatchId, s: Step) {
    m in batch && s in Bits(db, m) && Moved(db, m, s)
  }

  /** `todo & bit`: a count to add. */
  predicate Todo(db: Db, batch: set<MatchId>, m: MatchId, s: Step) {
    m in batch && (s !in Bits(db, m) || Moved(db, m, s))
  }

  /** `delta_old`: the facts whose count is taken back, at the tiers the step counted. */
  function SubRows(db: Db, batch: set<MatchId>, s: Step): set<Row> {
    set fk | fk in db.facts && Joined(db, fk) && Sub(db, batch, fk.mid, s) :: RowAt(db, s, fk, CountedTier(db, s, fk))
  }

  /** `delta_facts` narrowed to the step's work, at the tiers now. */
  function NewRows(db: Db, batch: set<MatchId>, s: Step): set<Row> {
    set fk | fk in db.facts && Joined(db, fk) && Todo(db, batch, fk.mid, s) :: RowAt(db, s, fk, db.facts[fk].tier)
  }

  /** `retracted > 0`. */
  predicate TakingBack(db: Db, batch: set<MatchId>) {
    exists m, s | m in batch && s in ALL_STEPS :: Sub(db, batch, m, s)
  }

  /** The net change of a cell. */
  ghost function Net(db: Db, batch: set<MatchId>, k: Key, c: nat): int {
    Agg(NewRows(db, batch, StepOf(k)), k, c) - Agg(SubRows(db, batch, StepOf(k)), k, c)
  }

  ghost predicate Touched(db: Db, batch: set<MatchId>, k: Key) {
    k in Keys(StepOf(k), NewRows(db, batch, StepOf(k))) || k in Keys(StepOf(k), SubRows(db, batch, StepOf(k)))
  }

  ghost function TouchedKeys(db: Db, batch: set<MatchId>): set<Key> {
    (set s, k | s in ALL_STEPS && k in Keys(s, NewRows(db, batch, s)) :: k)
    + (set s, k | s in ALL_STEPS && k in Keys(s, SubRows(db, batch, s)) :: k)
  }

  /** Whether the row is in the table once the batch is merged and the rows it emptied are deleted. */
  ghost predicate Survives(db: Db, batch: set<MatchId>, k: Key) {
    && (k in db.tables || Touched(db, batch, k))
    && (TakingBack(db, batch) && Touched(db, batch, k) ==> Cell(db.tables, k, 0) + Net(db, batch, k, 0) > 0)
  }

  /** The tables after a batch: every touched row upserted by its net change, emptied rows gone. */
  ghost function BatchTables(db: Db, batch: set<MatchId>): Table {
    map k | k in db.tables.Keys + TouchedKeys(db, batch) && Survives(db, batch, k) ::
      seq(Width(k), (c: nat) => Cell(db.tables, k, c) + Net(db, batch, k, c))
  }

  /** `count_batch`: nothing unless the ladder is ready. */
  ghost function CountBatch(db: Db, batch: set<MatchId>): Db {
    if !Ready(db) then db else
      db.(tables := BatchTables(db, batch),
          counted := AllCounted(db.counted, batch),
          retract := Forgotten(db.retract, batch))
  }

  function AllCounted(counted: map<MatchId, set<Step>>, batch: set<MatchId>): map<MatchId, set<Step>> {
    counted + (map m | m in batch :: ALL_STEPS)
  }

  function Forgotten(retract: map<RetractKey, Option<Tier>>, batch: set<MatchId>): map<RetractKey, Option<Tier>> {
    map rk | rk in retract && rk.mid !in batch :: retract[rk]
  }

  // ── Invariants ────────────────────────────────────────────────────────────

  /** A retract row belongs to a step that counts the match; table rows have their columns. */
  predicate WellFormed(db: Db) {
    && (forall rk | rk in db.retract :: rk.step in Bits(db, rk.mid))
    && (forall k | k in db.tables :: |db.tables[k]| == Width(k))
  }

  /** Every archived match has its `analytics_counted` row. */
  predicate AllListed(db: Db) {
    forall fk | fk in db.facts :: fk.mid in db.counted
  }

  /** Step `s`' tables are what its statements give for what it has counted. */
  ghost predicate StepOk(db: Db, s: Step) {
    Part(db.tables, s) == Query(s, CountedRows(db, s)) && AllListed(db)
  }

  ghost predicate Consistent(db: Db) {
    forall s :: StepOk(db, s)
  }

  /** Nothing pending and nothing to take back. */
  predicate Drained(db: Db) {
    (forall m | m in db.counted :: db.counted[m] == ALL_STEPS) && db.retract == map[]
  }

  // ── Tables against aggregates, cell by cell ───────────────────────────────

  lemma {:induction false} PartIsQuery(t: Table, s: Step, rows: set<Row>)
    requires forall k | k in t :: |t[k]| == Width(k)
    requires forall k | StepOf(k) == s :: k in t <==> Agg(rows, k, 0) > 0
    requires forall k, c | StepOf(k) == s && k in t && 0 <= c < Width(k) :: Cell(t, k, c) == Agg(rows, k, c)
    ensures Part(t, s) == Query(s, rows)
  {
    hide Keys, Units, Agg;
    var q := Query(s, rows);
    forall k ensures k in Part(t, s) <==> k in q {
      CountColumn(rows, k);
      KeysAreGroups(s, rows, k);
    }
    forall k | k in q ensures Part(t, s)[k] == q[k] {
      assert k in Part(t, s);
      forall c | 0 <= c < Width(k) ensures t[k][c] == q[k][c] {
        assert Cell(t, k, c) == t[k][c];
      }
    }
  }

  lemma {:induction false} QueryIsPart(t: Table, s: Step, rows: set<Row>, k: Key)
    requires Part(t, s) == Query(s, rows) && StepOf(k) == s
    ensures k in t <==> Agg(rows, k, 0) > 0
    ensures forall c | 0 <= c < Width(k) :: Cell(t, k, c) == Agg(rows, k, c)
    ensures k in t ==> |t[k]| == Width(k)
  {
    CountColumn(rows, k);
    assert k in t <==> k in Part(t, s);
    forall c | 0 <= c < Width(k) ensures Cell(t, k, c) == Agg(rows, k, c) {
      QueryCell(s, rows, k, c);
      assert k in t ==> t[k] == Part(t, s)[k];
    }
  }

  // ── Rows and their facts ──────────────────────────────────────────────────

  function FactOf(r: Row): FactKey {
    FactKey(r.mid, r.puuid)
  }

  /** `r` is its fact, as step `s` reads it, at its tier. */
  predicate IsFactRow(db: Db, s: Step, r: Row) {
    Joined(db, FactOf(r)) && r == RowAt(db, s, FactOf(r), r.tier)
  }

  lemma InCountedRows(db: Db, s: Step, r: Row)
    ensures r in CountedRows(db, s) <==>
            IsFactRow(db, s, r) && s in Bits(db, r.mid) && r.tier == CountedTier(db, s, FactOf(r))
  {}

  lemma InRowsNow(db: Db, s: Step, ms: set<MatchId>, r: Row)
    ensures r in RowsNow(db, s, ms) <==> IsFactRow(db, s, r) && r.mid in ms && r.tier == db.facts[FactOf(r)].tier
  {}

  lemma InSubRows(db: Db, batch: set<MatchId>, s: Step, r: Row)
    ensures r in SubRows(db, batch, s) <==>
            IsFactRow(db, s, r) && Sub(db, batch, r.mid, s) && r.tier == CountedTier(db, s, FactOf(r))
  {}

  lemma InNewRows(db: Db, batch: set<MatchId>, s: Step, r: Row)
    ensures r in NewRows(db, batch, s) <==>
            IsFactRow(db, s, r) && Todo(db, batch, r.mid, s) && r.tier == db.facts[FactOf(r)].tier
  {}
}
