/**
 The ladder's tables as the program keeps them: rows changed in place by the
 archive's writes, a rebuild step and a delta batch, and the loop that runs
 batches until nothing is left. Every method is proved against its transition in
 `Ladder`.
 */
module Delta {
  import opened Wrappers
  import opened Sums
  import opened Tables
  import opened Aggregates
  import opened Ladder
  import opened Staging
  import opened Draining

  // ── The statements ────────────────────────────────────────────────────────

  /** Every column of one group. */
  method EveryColumn(rows: set<Row>, k: Key) returns (v: seq<int>)
    ensures v == Vector(rows, k)
  {
    hide Units, Worth;
    v := [];
    for c := 0 to Width(k)
      invariant |v| == c
      invariant forall i | 0 <= i < c :: v[i] == Agg(rows, k, i)
    {
      var n := SumOver(Units(rows, k, c), Worth(c));
      v := v + [n];
    }
  }

  /**
   Run a step's statements over `rows`. The floor tables go through the matches'
   top ranks, counted per rank and spread downward.
   */
  method Select(s: Step, rows: set<Row>) returns (t: Table)
    requires OneInfo(rows)
    ensures t == Direct(s, rows)
  {
    hide Units, Agg, Keys, Vector;
    t := map[];
    var keys := set k | k in Keys(s, rows) && !k.StatTotal?;
    var rest := keys;
    while rest != {}
      invariant rest <= keys
      invariant t.Keys == keys - rest
      invariant forall k | k in t :: t[k] == Vector(rows, k)
      decreases |rest|
    {
      var k :| k in rest;
      var v;
      if k.FloorTotal? || k.BanFloorTotal? {
        v := FloorColumn(s, rows, k);
      } else {
        v := EveryColumn(rows, k);
      }
      t := t[k := v];
      rest := rest - {k};
    }
    assert t.Keys == Direct(s, rows).Keys;
  }

  /** A floor row: `floor_top`'s ranks, counted per rank and spread down to the floor. */
  method FloorColumn(s: Step, rows: set<Row>, k: Key) returns (v: seq<int>)
    requires OneInfo(rows) && k in Keys(s, rows) && (k.FloorTotal? || k.BanFloorTotal?)
    ensures v == Vector(rows, k)
  {
    hide Units, Agg, KeysOfRow, KeysOfDuel, Keys, Spread;
    FloorGroup(s, rows, k);
    FloorsAreDirect(rows, k);
    v := [Spread(rows, k, Rank(k.floor))];
  }

  lemma {:induction false} FloorGroup(s: Step, rows: set<Row>, k: Key)
    requires k in Keys(s, rows) && (k.FloorTotal? || k.BanFloorTotal?)
    ensures k.floor in FLOORS
  {
    KeysAreGroups(s, rows, k);
  }

  /** One totals row from stats rows. */
  method TotalColumns(t: Table, k: Key) returns (v: seq<int>)
    requires k.StatTotal?
    ensures v == TotalVector(t, k)
  {
    v := [];
    for c := 0 to Width(k)
      invariant |v| == c
      invariant forall i | 0 <= i < c :: v[i] == TotalCell(t, k, i)
    {
      var n := SumOver(StatRows(t, k), Column(t, c));
      v := v + [n];
    }
  }

  /** `totals_from` over stats rows. */
  method Totals(t: Table) returns (out: Table)
    ensures out == TotalsFrom(t)
  {
    hide TotalVector;
    out := map[];
    var keys := set s | s in t && s.Stat? :: Untiered(s);
    var rest := keys;
    while rest != {}
      invariant rest <= keys
      invariant out.Keys == keys - rest
      invariant forall k | k in out :: k.StatTotal? && out[k] == TotalVector(t, k)
      decreases |rest|
    {
      var k :| k in rest;
      var v := TotalColumns(t, k);
      out := out[k := v];
      rest := rest - {k};
    }
    assert out.Keys == TotalsFrom(t).Keys;
  }

  /** One totals row from a batch's staged stats. */
  method StagedColumns(ts: Staged, k: Key) returns (v: seq<int>)
    requires k.StatTotal?
    ensures v == StagedVector(ts, k)
  {
    v := [];
    for c := 0 to Width(k)
      invariant |v| == c
      invariant forall i | 0 <= i < c :: v[i] == Sum(StagedStats(ts, k), StagedColumn(ts, i))
    {
      var n := SumOver(StagedStats(ts, k), StagedColumn(ts, c));
      v := v + [n];
    }
  }

  /** `totals_from` over the batch's staged stats rows. */
  method TotalsOfStaged(ts: Staged) returns (out: Table)
    ensures out == StagedTotals(ts)
  {
    hide StagedVector, StagedKeys;
    out := map[];
    var keys := set s | s in StagedKeys(ts) && s.Stat? :: Untiered(s);
    var rest := keys;
    while rest != {}
      invariant rest <= keys
      invariant out.Keys == keys - rest
      invariant forall k | k in out :: k.StatTotal? && out[k] == StagedVector(ts, k)
      decreases |rest|
    {
      var k :| k in rest;
      var v := StagedColumns(ts, k);
      out := out[k := v];
      rest := rest - {k};
    }
    assert out.Keys == StagedTotals(ts).Keys;
  }

  /** The stats a rebuild has just written are the ones it totals. */
  lemma {:induction false} RebuiltStats(t: Table, rows: set<Row>, patches: Option<set<Patch>>)
    requires forall r | r in rows :: InScope(patches, r.info.patch)
    requires forall k | k in t && StepOf(k) == Champions :: !InScope(patches, k.patch)
    ensures var written := t + Direct(Champions, rows);
            var stats := map k | k in written && k.Stat? && InScope(patches, k.patch) :: written[k];
            TotalsFrom(stats) == TotalsFrom(Direct(Champions, rows))
  {
    hide Units, Agg, Keys;
    var d := Direct(Champions, rows);
    var written := t + d;
    var stats := map k | k in written && k.Stat? && InScope(patches, k.patch) :: written[k];
    forall k: Key | k.Stat? ensures (k in stats <==> k in d) && (k in d ==> stats[k] == d[k]) {
      if k in d {
        KeysAreGroups(Champions, rows, k);
        GroupPatch(rows, k);
      }
    }
    SameTotals(stats, d);
  }

  lemma {:induction false} GroupPatch(rows: set<Row>, k: Key)
    requires Units(rows, k, 0) != {}
    ensures exists r :: r in rows && r.info.patch == k.patch
  {
    if k.Versus? {
      var a, b :| a in rows && b in rows && Duelling(rows, a, b) && InDuelGroup(a, b, k);
    } else {
      var r :| r in rows && InGroup(r, k);
    }
  }

  lemma {:induction false} SameTotals(a: Table, b: Table)
    requires forall k: Key | k.Stat? :: (k in a <==> k in b) && (k in b ==> a[k] == b[k])
    ensures TotalsFrom(a) == TotalsFrom(b)
  {
    assert (set s | s in a && s.Stat? :: Untiered(s)) == (set s | s in b && s.Stat? :: Untiered(s));
    forall k: Key, c: nat | k.StatTotal? ensures TotalCell(a, k, c) == TotalCell(b, k, c) {
      assert StatRows(a, k) == StatRows(b, k);
      SumSame(StatRows(a, k), Column(a, c), Column(b, c));
    }
    forall k | k in TotalsFrom(a) ensures k in TotalsFrom(b) && TotalsFrom(a)[k] == TotalsFrom(b)[k] {
      forall c | 0 <= c < Width(k) ensures TotalsFrom(a)[k][c] == TotalsFrom(b)[k][c] {}
    }
  }

  function Lookup(facts: map<FactKey, Fact>, fk: FactKey): Option<Fact> {
    if fk in facts then Some(facts[fk]) else None
  }

  /** A fact after the players of `rows` outside `rest` have been upserted. */
  function Upserted(was: map<FactKey, Fact>, m: MatchId, rows: map<Puuid, Columns>, rest: set<Puuid>, fk: FactKey): Option<Fact> {
    if fk.mid != m then Lookup(was, fk)
    else if fk.puuid !in rows then None
    else if fk.puuid in rest then Lookup(was, fk)
    else Some(Fact(rows[fk.puuid], TierIn(was, fk)))
  }

  /** The upserts of `facts::write`: players no longer in the body lose their row, the others keep their tier. */
  method UpsertFacts(was: map<FactKey, Fact>, m: MatchId, rows: map<Puuid, Columns>) returns (facts: map<FactKey, Fact>)
    ensures facts == WrittenFacts(was, m, rows)
  {
    facts := map fk | fk in was && (fk.mid != m || fk.puuid in rows) :: was[fk];
    var rest := rows.Keys;
    while rest != {}
      invariant rest <= rows.Keys
      invariant forall fk :: Lookup(facts, fk) == Upserted(was, m, rows, rest, fk)
      decreases |rest|
    {
      var p :| p in rest;
      var fk := FactKey(m, p);
      assert Lookup(facts, fk) == Lookup(was, fk);
      var next := facts[fk := Fact(rows[p], if fk in facts then facts[fk].tier else None)];
      forall other ensures Lookup(next, other) == Upserted(was, m, rows, rest - {p}, other) {
        assert Lookup(facts, other) == Upserted(was, m, rows, rest, other);
        assert other.mid == m && other.puuid == p <==> other == fk;
      }
      facts, rest := next, rest - {p};
    }
    assert facts == WrittenFacts(was, m, rows) by {
      forall fk ensures Lookup(facts, fk) == Lookup(WrittenFacts(was, m, rows), fk) {
        WrittenLookup(was, m, rows, fk);
      }
      SameLookups(facts, WrittenFacts(was, m, rows));
    }
  }

  lemma WrittenLookup(was: map<FactKey, Fact>, m: MatchId, rows: map<Puuid, Columns>, fk: FactKey)
    ensures Lookup(WrittenFacts(was, m, rows), fk) == Upserted(was, m, rows, {}, fk)
  {}

  lemma {:induction false} SameLookups(a: map<FactKey, Fact>, b: map<FactKey, Fact>)
    requires forall fk :: Lookup(a, fk) == Lookup(b, fk)
    ensures a == b
  {
    forall fk ensures fk in a <==> fk in b {
      assert Lookup(a, fk) == Lookup(b, fk);
    }
    forall fk | fk in a ensures a[fk] == b[fk] {
      assert Lookup(a, fk) == Lookup(b, fk);
    }
  }

  /** The trigger's inserts, one per counting step, an existing row kept. */
  method Remember(was: map<RetractKey, Option<Tier>>, fk: FactKey, bits: set<Step>, tier: Option<Tier>)
    returns (retract: map<RetractKey, Option<Tier>>)
    ensures retract == Remembered(was, fk, bits, tier)
  {
    retract := was;
    var rest := bits;
    while rest != {}
      invariant rest <= bits
      invariant forall rk :: rk in retract <==>
                             rk in was || (rk.mid == fk.mid && rk.puuid == fk.puuid && rk.step in bits - rest)
      invariant forall rk | rk in retract :: retract[rk] == if rk in was then was[rk] else tier
      decreases |rest|
    {
      var s :| s in rest;
      var rk := RetractKey(fk.mid, fk.puuid, s);
      if rk !in retract {
        retract := retract[rk := tier];
      }
      rest := rest - {s};
    }
  }

  lemma RowsNowHaveOneInfo(db: Db, s: Step, ms: set<MatchId>)
    ensures OneInfo(RowsNow(db, s, ms))
  {}

  lemma RowsNowInScope(db: Db, s: Step, patches: Option<set<Patch>>)
    ensures forall r | r in RowsNow(db, s, ScopeMatches(db, patches)) :: InScope(patches, r.info.patch)
  {}

  /** A step's tables cleared for the scope, written from every fact and, for the champions, totalled over tier. */
  method RebuildTables(db: Db, s: Step, patches: Option<set<Patch>>) returns (tables: Table)
    ensures tables == Cleared(db.tables, s, patches) + Query(s, RowsNow(db, s, ScopeMatches(db, patches)))
  {
    hide Units, Agg, Keys, Query, Direct, TotalsFrom, RowsNow;
    var rows := RowsNow(db, s, ScopeMatches(db, patches));
    RowsNowHaveOneInfo(db, s, ScopeMatches(db, patches));
    RowsNowInScope(db, s, patches);
    tables := Cleared(db.tables, s, patches);
    var selected := Select(s, rows);
    ghost var kept := tables;
    tables := tables + selected;
    TotalsComplete(s, rows);
    if s == Champions {
      RebuiltStats(kept, rows, patches);
      var stats := map k | k in tables && k.Stat? && InScope(patches, k.patch) :: tables[k];
      var totals := Totals(stats);
      tables := tables + totals;
    }
  }

  lemma BatchRowsHaveOneInfo(db: Db, batch: set<MatchId>, s: Step)
    ensures OneInfo(SubRows(db, batch, s)) && OneInfo(NewRows(db, batch, s))
  {}

  lemma {:induction false} NothingSelected(s: Step)
    ensures Negated(Direct(s, {})) == map[]
  {
    forall k ensures k !in Direct(s, {}) {
      if k in Direct(s, {}) {
        KeysAreGroups(s, {}, k);
      }
    }
  }

  lemma {:induction false} ProgressStart(db: Db, batch: set<MatchId>)
    requires Widths(db.tables)
    ensures Progress(db, batch, 0, db.tables, [])
  {
    hide Touched, Net;
    forall k ensures !InStaged([], k) && !Done(k, 0) && (forall c :: StagedCell([], k, c) == 0) {}
  }

  /**
   The statements of `count_batch`, step by step: counts to take back negated
   into the staging copies, counts to add upserted or staged, the totals summed
   from the staged stats, and the copies merged.
   */
  method MergedTables(db: Db, batch: set<MatchId>) returns (tables: Table)
    requires Widths(db.tables)
    ensures tables == BatchTables(db, batch)
  {
    hide Units, Agg, Keys, Query, Direct, BatchTables, Progress, Upsert, Cleaned, StagedTotals, SubRows, NewRows, OneInfo, Negated;
    var takingBack := TakingBack(db, batch);
    tables := db.tables;
    var staged: Staged := [];
    ProgressStart(db, batch);
    for i := 0 to |STEPS|
      invariant Progress(db, batch, i, tables, staged)
    {
      var s := STEPS[i];
      BatchRowsHaveOneInfo(db, batch, s);
      if takingBack {
        StageStep(db, batch, i, tables, staged);
        var taken: Table := map[];
        if exists m | m in batch :: Sub(db, batch, m, s) {
          var counted := Select(s, SubRows(db, batch, s));
          taken := Negated(counted);
        } else {
          NoSubRows(db, batch, s);
          NothingSelected(s);
        }
        var added := Select(s, NewRows(db, batch, s));
        staged := staged + [taken] + [added];
      } else {
        UpsertStep(db, batch, i, tables, staged);
        var added := Select(s, NewRows(db, batch, s));
        tables := Upsert(tables, [NotStatsOf(added)]);
        staged := staged + [StatsOf(added)];
      }
    }
    MergeIsBatch(db, batch, tables, staged);
    var totals := TotalsOfStaged(staged);
    staged := staged + [totals];
    tables := Upsert(tables, staged);
    if takingBack {
      tables := Cleaned(tables, staged);
    }
  }

  /** The first `limit` ids of a set in id order. */
  method FirstIds(s: set<MatchId>, limit: nat) returns (ids: seq<MatchId>)
    ensures |ids| <= limit && (s != {} && limit > 0 ==> ids != [])
    ensures forall i | 0 <= i < |ids| :: ids[i] in s
    ensures forall i, j | 0 <= i < j < |ids| :: ids[i] < ids[j]
    ensures forall m | m in s && m !in ids :: |ids| == limit && forall i | 0 <= i < |ids| :: ids[i] < m
  {
    ids := [];
    var rest := s;
    while rest != {} && |ids| < limit
      invariant rest <= s && |ids| <= limit
      invariant forall m | m in s :: m in ids || m in rest
      invariant forall i | 0 <= i < |ids| :: ids[i] in s
      invariant forall i, m | 0 <= i < |ids| && m in rest :: ids[i] < m
      invariant forall i, j | 0 <= i < j < |ids| :: ids[i] < ids[j]
      invariant rest != s || ids == []
      invariant rest != s ==> ids != []
      decreases |rest|
    {
      var least := Least(rest);
      ids := ids + [least];
      rest := rest - {least};
    }
  }

  method Least(s: set<MatchId>) returns (least: MatchId)
    requires s != {}
    ensures least in s && forall m | m in s :: least <= m
  {
    least :| least in s;
    var rest := s - {least};
    while rest != {}
      invariant rest <= s && least in s
      invariant forall m | m in s && m !in rest :: least <= m
      decreases |rest|
    {
      var m :| m in rest;
      if m < least {
        least := m;
      }
      rest := rest - {m};
    }
  }

  /**
   One batch's matches: up to half its size with counts to take back, each
   costing about two, then as many of those waiting after the cursor as are left.
   */
  method NextIds(db: Db, size: nat, cursor: int) returns (ids: seq<MatchId>, last: int)
    requires size >= 2
    ensures forall m | m in ids :: m in Outstanding(db)
    ensures forall i, j | 0 <= i < j < |ids| :: ids[i] != ids[j]
    ensures ids == [] ==> Retracting(db) == {} && forall m | m in Pending(db) :: m <= cursor
    ensures cursor <= last && forall m | m in Pending(db) && cursor < m <= last :: m in ids
  {
    hide Pending, Retracting;
    var back := FirstIds(Retracting(db), size / 2);
    var room := if size <= 2 * |back| then 1 else size - 2 * |back|;
    var after := set m | m in Pending(db) && m > cursor;
    var waiting := FirstIds(after, room);
    last := if waiting == [] then cursor else waiting[|waiting| - 1];
    ids := MergeIds(back, waiting);
    assert back != [] ==> back[0] in ids;
    assert waiting != [] ==> waiting[0] in ids;
    forall m | m in Pending(db) && cursor < m <= last ensures m in waiting {
      assert m in after;
    }
    forall m | m in waiting ensures m in Pending(db) {
      assert m in after;
    }
    forall m | m in Pending(db) ensures m <= cursor || waiting != [] {
      assert m <= cursor || m in after;
    }
  }

  /** The ids of both lists, those of `back` first, none twice. */
  method MergeIds(back: seq<MatchId>, waiting: seq<MatchId>) returns (ids: seq<MatchId>)
    requires forall i, j | 0 <= i < j < |back| :: back[i] != back[j]
    ensures forall m :: m in ids <==> m in back || m in waiting
    ensures forall i, j | 0 <= i < j < |ids| :: ids[i] != ids[j]
    ensures back <= ids
  {
    ids := back;
    for i := 0 to |waiting|
      invariant forall m :: m in ids <==> m in back || m in waiting[..i]
      invariant forall i, j | 0 <= i < j < |ids| :: ids[i] != ids[j]
      invariant back <= ids
    {
      if waiting[i] !in ids {
        ids := ids + [waiting[i]];
      }
      assert waiting[..i + 1] == waiting[..i] + [waiting[i]];
    }
    assert waiting[..|waiting|] == waiting;
  }

  datatype Outcome = NotReady | ForeignKey | Counted(added: nat, retracted: nat)

  class AnalyticsStore {
    var matches: map<MatchId, MatchInfo>
    var facts: map<FactKey, Fact>
    var builds: map<FactKey, Facets>
    var counted: map<MatchId, set<Step>>
    var retract: map<RetractKey, Option<Tier>>
    var tables: Table
    var stampedAt: Option<int>
    var dirtyAt: Option<int>

    function View(): Db
      reads this
    {
      Db(matches, facts, builds, counted, retract, tables, stampedAt, dirtyAt)
    }

    /** `facts::write` and `on_facts_written`, with the match row. */
    method ArchiveFacts(m: MatchId, info: MatchInfo, rows: map<Puuid, Columns>, now: int)
      modifies this
      ensures View() == WriteFacts(old(View()), m, info, rows, now)
    {
      hide WrittenFacts;
      if Rewrites(View(), m) {
        dirtyAt := Some(now);
      }
      matches := matches[m := info.(version := Some(FACTS_VERSION))];
      facts := UpsertFacts(facts, m, rows);
      if m !in counted {
        counted := counted[m := {}];
      }
    }

    /** An update of one fact's tier and the `match_facts_tier_moved` trigger. */
    method StampTier(fk: FactKey, tier: Option<Tier>)
      modifies this
      ensures View() == MoveTier(old(View()), fk, tier)
    {
      hide Remembered;
      if fk in facts {
        var was := facts[fk];
        facts := facts[fk := was.(tier := tier)];
        if was.tier != tier {
          retract := Remember(retract, fk, if fk.mid in counted then counted[fk.mid] else {}, was.tier);
        }
      }
    }

    /** `builds::write` and `on_builds_written`. */
    method ArchiveBuilds(m: MatchId, rows: map<Puuid, Facets>, now: int)
      modifies this
      ensures View() == WriteBuilds(old(View()), m, rows, now)
    {
      hide ReplacedBuilds, HasBuilds, ForgottenSets;
      var hadRows := HasBuilds(View(), m);
      builds := ReplacedBuilds(builds, m, rows);
      if !hadRows {
        if m in counted {
          counted := counted[m := counted[m] - {Sets}];
        }
        retract := ForgottenSets(retract, m);
      } else if m in counted && Sets in counted[m] {
        dirtyAt := Some(now);
      }
    }

    /** `rebuild_step`. */
    method Rebuild(s: Step, patches: Option<set<Patch>>)
      modifies this
      ensures View() == RebuildStep(old(View()), s, patches)
    {
      hide Units, Agg, Keys, Query, Direct, Cleared, TotalsFrom;
      var ms := ScopeMatches(View(), patches);
      tables := RebuildTables(View(), s, patches);
      var stamped := Stamp(View(), s, ms);
      counted, retract := stamped.counted, stamped.retract;
    }

    /** `mark_stamped`. */
    method FinishRebuild(started: int, now: int)
      modifies this
      ensures View() == MarkStamped(old(View()), started, now)
    {
      if dirtyAt.None? || dirtyAt.value < started {
        stampedAt, dirtyAt := Some(now), None;
      }
    }

    /** `count_batch`: one transaction, which a match without its row rolls back. */
    method CountBatch(ids: seq<MatchId>) returns (out: Outcome)
      requires Widths(tables)
      modifies this
      ensures out.NotReady? <==> !Ready(old(View()))
      ensures out.ForeignKey? <==> Ready(old(View())) && exists m | m in ids :: m !in matches
      ensures View() == if out.Counted? then Ladder.CountBatch(old(View()), Ids(ids)) else old(View())
      ensures out.Counted? ==> out.added == |Added(old(View()), Ids(ids))| && out.retracted == |Retracted(old(View()), Ids(ids))|
    {
      hide BatchTables, Added, Retracted;
      var batch := Ids(ids);
      if !Ready(View()) {
        return NotReady;
      }
      if m :| m in ids && m !in matches {
        return ForeignKey;
      }
      out := Counted(|Added(View(), batch)|, |Retracted(View(), batch)|);
      tables := MergedTables(View(), batch);
      counted := AllCounted(counted, batch);
      retract := Forgotten(retract, batch);
    }

    /**
     `delta_ladder`: batches of the first matches with a count to take back, then
     of those waiting after the cursor, until neither is left. Whatever sizes the
     measured times give, the ladder ends as if all had been counted in one batch.
     */
    method Drain(cap: nat, targetMs: nat, before: Option<nat>, times: nat -> real) returns (next: nat, batches: nat)
      requires WellFormed(View()) && (Ready(View()) ==> Consistent(View()))
      modifies this
      ensures View() == Ladder.CountBatch(old(View()), Outstanding(old(View())))
      ensures Ready(View()) ==> Outstanding(View()) == {}
      ensures batches <= |Outstanding(old(View()))|
      ensures MIN_BATCH <= next <= CapOf(cap)
    {
      hide WellFormed, Consistent, Pending, Retracting, Outstanding, Ids, Widths, Ladder.CountBatch;
      next, batches := StartSize(before, cap), 0;
      var cursor: int := -1;
      ghost var was := View();
      ghost var taken: set<MatchId> := {};
      RunStarts(was);
      while true
        invariant WellFormed(was) && (Ready(was) ==> Consistent(was))
        invariant taken <= Outstanding(was) && batches <= |taken|
        invariant View() == Ladder.CountBatch(was, taken)
        invariant forall m | m in Pending(was) && m <= cursor :: m in taken
        invariant MIN_BATCH <= next <= CapOf(cap)
        decreases Outstanding(was) - taken
      {
        BatchKeepsReady(was, taken);
        var ids, last := NextIds(View(), next, cursor);
        if ids == [] {
          NothingLeft(was, taken, cursor);
          break;
        }
        var out := CountBatch(ids);
        if out.NotReady? {
          BatchKeepsReady(was, Outstanding(was));
          break;
        }
        IdsOutstanding(was, taken, ids);
        CursorMoves(was, taken, cursor, ids, last);
        BatchTaken(was, taken, ids);
        cursor := last;
        taken := taken + Ids(ids);
        next := NextSize(next, targetMs, times(batches), cap);
        batches := batches + 1;
      }
      SubsetSize(taken, Outstanding(was));
    }
  }
}
