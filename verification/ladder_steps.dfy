/**
 What each transaction does to the correspondence between a step's tables and
 what it has counted.
 */
module LadderSteps {
  import opened Wrappers
  import opened Tables
  import opened Aggregates
  import opened Ladder

  // ── A delta batch ─────────────────────────────────────────────────────────

  /** The counted rows a batch leaves alone. */
  function KeptRows(db: Db, batch: set<MatchId>, s: Step): set<Row> {
    set fk | fk in db.facts && Joined(db, fk) && s in Bits(db, fk.mid) && !Sub(db, batch, fk.mid, s) ::
      RowAt(db, s, fk, CountedTier(db, s, fk))
  }

  lemma InKeptRows(db: Db, batch: set<MatchId>, s: Step, r: Row)
    ensures r in KeptRows(db, batch, s) <==>
            && IsFactRow(db, s, r) && s in Bits(db, r.mid) && !Sub(db, batch, r.mid, s)
            && r.tier == CountedTier(db, s, FactOf(r))
  {}

  lemma {:induction false} BatchSplitsBefore(db: Db, batch: set<MatchId>, s: Step)
    ensures CountedRows(db, s) == KeptRows(db, batch, s) + SubRows(db, batch, s)
    ensures MatchDisjoint(KeptRows(db, batch, s), SubRows(db, batch, s))
    ensures MatchDisjoint(KeptRows(db, batch, s), NewRows(db, batch, s))
  {
    hide CountedRows, KeptRows, SubRows, NewRows, IsFactRow, Bits, Moved;
    forall r
      ensures r in CountedRows(db, s) <==> r in KeptRows(db, batch, s) || r in SubRows(db, batch, s)
      ensures r in KeptRows(db, batch, s) ==> s in Bits(db, r.mid) && !Sub(db, batch, r.mid, s)
      ensures r in SubRows(db, batch, s) ==> Sub(db, batch, r.mid, s)
      ensures r in NewRows(db, batch, s) ==> Todo(db, batch, r.mid, s)
    {
      InCountedRows(db, s, r);
      InKeptRows(db, batch, s, r);
      InSubRows(db, batch, s, r);
      InNewRows(db, batch, s, r);
    }
  }

  lemma {:induction false} BatchTier(db: Db, batch: set<MatchId>, s: Step, fk: FactKey)
    requires Ready(db) && Joined(db, fk)
    ensures var after := CountBatch(db, batch);
            && (s in Bits(after, fk.mid) <==> (s in Bits(db, fk.mid) && !Sub(db, batch, fk.mid, s)) || Todo(db, batch, fk.mid, s))
            && (s in Bits(db, fk.mid) && !Sub(db, batch, fk.mid, s) ==> CountedTier(after, s, fk) == CountedTier(db, s, fk))
            && (Todo(db, batch, fk.mid, s) ==> CountedTier(after, s, fk) == db.facts[fk].tier)
  {
    var rk := RetractKey(fk.mid, fk.puuid, s);
    if rk in db.retract {
      assert Moved(db, fk.mid, s);
    }
  }

  /** After a batch every match of it is counted at its tiers now. */
  lemma {:induction false} BatchSplitsAfter(db: Db, batch: set<MatchId>, s: Step)
    requires Ready(db)
    ensures CountedRows(CountBatch(db, batch), s) == KeptRows(db, batch, s) + NewRows(db, batch, s)
  {
    hide CountedRows, KeptRows, NewRows, BatchTables, Bits, CountedTier;
    forall r ensures r in CountedRows(CountBatch(db, batch), s) <==> r in KeptRows(db, batch, s) + NewRows(db, batch, s) {
      InCountedRows(CountBatch(db, batch), s, r);
      InKeptRows(db, batch, s, r);
      InNewRows(db, batch, s, r);
      assert IsFactRow(CountBatch(db, batch), s, r) == IsFactRow(db, s, r);
      if IsFactRow(db, s, r) {
        BatchTier(db, batch, s, FactOf(r));
      }
    }
  }

  /** The net change is exactly what moves the counted aggregates. */
  lemma {:induction false} BatchNet(db: Db, batch: set<MatchId>, k: Key, c: nat)
    requires Ready(db)
    ensures Agg(CountedRows(CountBatch(db, batch), StepOf(k)), k, c)
            == Agg(CountedRows(db, StepOf(k)), k, c) + Net(db, batch, k, c)
  {
    var s := StepOf(k);
    BatchSplitsBefore(db, batch, s);
    BatchSplitsAfter(db, batch, s);
    AggReplace(KeptRows(db, batch, s), SubRows(db, batch, s), NewRows(db, batch, s), k, c);
  }

  lemma {:induction false} UntouchedNet(db: Db, batch: set<MatchId>, k: Key, c: nat)
    requires !Touched(db, batch, k)
    ensures Net(db, batch, k, c) == 0
  {
    ZeroOutsideGroups(NewRows(db, batch, StepOf(k)), k, c);
    ZeroOutsideGroups(SubRows(db, batch, StepOf(k)), k, c);
  }

  lemma {:induction false} TouchedIsTouched(db: Db, batch: set<MatchId>, k: Key)
    ensures Touched(db, batch, k) <==> k in TouchedKeys(db, batch)
  {
    hide Keys, NewRows, SubRows, Units, StepOf;
    EveryStep(StepOf(k));
    forall s | s in ALL_STEPS ensures k in Keys(s, NewRows(db, batch, s)) ==> StepOf(k) == s {
      KeysAreGroups(s, NewRows(db, batch, s), k);
    }
    forall s | s in ALL_STEPS ensures k in Keys(s, SubRows(db, batch, s)) ==> StepOf(k) == s {
      KeysAreGroups(s, SubRows(db, batch, s), k);
    }
  }

  /** Without anything to take back, the batch only adds. */
  lemma {:induction false} NothingTakenBack(db: Db, batch: set<MatchId>, s: Step)
    requires !TakingBack(db, batch)
    ensures SubRows(db, batch, s) == {}
  {
    forall m | m in batch ensures !Sub(db, batch, m, s) {
      assert s in ALL_STEPS;
    }
  }

  /** A row is there after the batch exactly when its count is positive, however retraction and addition mix in it. */
  lemma {:induction false} SurvivesIffPositive(db: Db, batch: set<MatchId>, k: Key)
    requires Ready(db) && StepOk(db, StepOf(k))
    ensures Survives(db, batch, k) <==> Cell(db.tables, k, 0) + Net(db, batch, k, 0) > 0
  {
    var s := StepOf(k);
    QueryIsPart(db.tables, s, CountedRows(db, s), k);
    CountColumn(CountedRows(db, s), k);
    if !Touched(db, batch, k) {
      UntouchedNet(db, batch, k, 0);
    } else if !TakingBack(db, batch) {
      NothingTakenBack(db, batch, s);
      CountColumn(NewRows(db, batch, s), k);
      AggEmpty(k, 0);
      KeysAreGroups(s, {}, k);
    }
  }

  lemma {:induction false} BatchRow(db: Db, batch: set<MatchId>, k: Key)
    ensures k in BatchTables(db, batch) <==> Survives(db, batch, k)
    ensures k in BatchTables(db, batch) ==> |BatchTables(db, batch)[k]| == Width(k)
    ensures k in BatchTables(db, batch) ==> forall c | 0 <= c < Width(k) ::
              Cell(BatchTables(db, batch), k, c) == Cell(db.tables, k, c) + Net(db, batch, k, c)
  {
    hide Keys, Units;
    TouchedIsTouched(db, batch, k);
  }

  lemma {:induction false} BatchKeepsRow(db: Db, batch: set<MatchId>, k: Key)
    requires Ready(db) && StepOk(db, StepOf(k))
    ensures var after, s := CountBatch(db, batch), StepOf(k);
            && (k in after.tables <==> Agg(CountedRows(after, s), k, 0) > 0)
            && (k in after.tables ==> |after.tables[k]| == Width(k))
            && (forall c | k in after.tables && 0 <= c < Width(k) ::
                  Cell(after.tables, k, c) == Agg(CountedRows(after, s), k, c))
  {
    hide Keys, Units;
    var after, s := CountBatch(db, batch), StepOf(k);
    assert after.tables == BatchTables(db, batch);
    BatchNet(db, batch, k, 0);
    QueryIsPart(db.tables, s, CountedRows(db, s), k);
    SurvivesIffPositive(db, batch, k);
    BatchRow(db, batch, k);
    forall c | k in after.tables && 0 <= c < Width(k)
      ensures Cell(after.tables, k, c) == Agg(CountedRows(after, s), k, c)
    {
      BatchNet(db, batch, k, c);
    }
  }

  /**
   A merged count is never below zero, so deleting the rows that reach zero, as a
   batch might, deletes those at or below it.
   */
  lemma {:induction false} NeverBelowZero(db: Db, batch: set<MatchId>, k: Key)
    requires Ready(db) && StepOk(db, StepOf(k))
    ensures Cell(db.tables, k, 0) + Net(db, batch, k, 0) >= 0
    ensures Survives(db, batch, k) <==>
            && (k in db.tables || Touched(db, batch, k))
            && (TakingBack(db, batch) && Touched(db, batch, k) ==> Cell(db.tables, k, 0) + Net(db, batch, k, 0) != 0)
  {
    hide Keys, Units, Agg, Touched, TakingBack, CountBatch, CountedRows;
    var s := StepOf(k);
    BatchNet(db, batch, k, 0);
    QueryIsPart(db.tables, s, CountedRows(db, s), k);
    CountColumn(CountedRows(CountBatch(db, batch), s), k);
  }

  /** A batch keeps every step's tables equal to what it has counted. */
  lemma {:induction false} BatchKeeps(db: Db, batch: set<MatchId>)
    requires Ready(db) && WellFormed(db) && Consistent(db)
    ensures WellFormed(CountBatch(db, batch)) && Consistent(CountBatch(db, batch))
  {
    var after := CountBatch(db, batch);
    forall k ensures var s := StepOf(k);
                     && (k in after.tables <==> Agg(CountedRows(after, s), k, 0) > 0)
                     && (k in after.tables ==> |after.tables[k]| == Width(k))
                     && (forall c | k in after.tables && 0 <= c < Width(k) ::
                           Cell(after.tables, k, c) == Agg(CountedRows(after, s), k, c))
    {
      assert StepOk(db, StepOf(k));
      BatchKeepsRow(db, batch, k);
    }
    forall s ensures StepOk(after, s) {
      assert StepOk(db, s);
      PartIsQuery(after.tables, s, CountedRows(after, s));
    }
  }

  /** After every commit each row counts something: no zero or negative row is ever left behind. */
  lemma {:induction false} NoEmptyRows(db: Db, k: Key)
    requires StepOk(db, StepOf(k)) && k in db.tables
    ensures |db.tables[k]| == Width(k) && db.tables[k][0] > 0
  {
    QueryIsPart(db.tables, StepOf(k), CountedRows(db, StepOf(k)), k);
    assert Cell(db.tables, k, 0) == db.tables[k][0];
  }

  // ── A rebuild step ────────────────────────────────────────────────────────

  /** A step's statements write only its own tables. */
  lemma {:induction false} QueryStaysInStep(s: Step, rows: set<Row>, k: Key)
    requires k in Query(s, rows)
    ensures StepOf(k) == s
  {
    KeysAreGroups(s, rows, k);
  }

  lemma {:induction false} PartOfOverwrite(t: Table, q: Table, s: Step, patches: Option<set<Patch>>, other: Step)
    requires other != s && forall k | k in q :: StepOf(k) == s
    ensures Part(Cleared(t, s, patches) + q, other) == Part(t, other)
  {
    hide StepOf, InScope;
    var now := Cleared(t, s, patches) + q;
    forall k ensures k in Part(now, other) <==> k in Part(t, other) {}
    forall k | k in Part(t, other) ensures Part(now, other)[k] == Part(t, other)[k] {
      assert k in Cleared(t, s, patches) && k !in q;
    }
  }

  lemma {:induction false} OtherTablesUntouched(db: Db, s: Step, patches: Option<set<Patch>>, other: Step)
    requires other != s
    ensures Part(RebuildStep(db, s, patches).tables, other) == Part(db.tables, other)
  {
    hide Keys, Units, Agg;
    var rows := RowsNow(db, s, ScopeMatches(db, patches));
    forall k | k in Query(s, rows) ensures StepOf(k) == s {
      QueryStaysInStep(s, rows, k);
    }
    PartOfOverwrite(db.tables, Query(s, rows), s, patches, other);
  }

  lemma {:induction false} StampTiers(db: Db, s: Step, ms: set<MatchId>, t: Step, fk: FactKey)
    requires Joined(db, fk)
    ensures var after := Stamp(db, s, ms);
            && (t in Bits(after, fk.mid) <==> t in Bits(db, fk.mid) || (t == s && fk.mid in ms))
            && CountedTier(after, t, fk) == (if t == s && fk.mid in ms then db.facts[fk].tier else CountedTier(db, t, fk))
  {
    assert HasFacts(db, fk.mid);
  }

  lemma {:induction false} StampOtherRow(db: Db, s: Step, ms: set<MatchId>, other: Step, r: Row)
    requires other != s
    ensures r in CountedRows(Stamp(db, s, ms), other) <==> r in CountedRows(db, other)
  {
    var after := Stamp(db, s, ms);
    InCountedRows(after, other, r);
    InCountedRows(db, other, r);
    if Joined(db, FactOf(r)) {
      StampTiers(db, s, ms, other, FactOf(r));
    }
  }

  lemma {:induction false} OtherRowsUntouched(db: Db, s: Step, patches: Option<set<Patch>>, other: Step)
    requires other != s
    ensures CountedRows(RebuildStep(db, s, patches), other) == CountedRows(db, other)
  {
    hide Keys, Units, Agg, Stamp, CountedRows, Query;
    var cleared := db.(tables := RebuildStep(db, s, patches).tables);
    RebuildIsStamp(db, s, patches);
    forall r ensures r in CountedRows(RebuildStep(db, s, patches), other) <==> r in CountedRows(db, other) {
      StampOtherRow(cleared, s, ScopeMatches(db, patches), other, r);
      TablesDoNotMatter(db, cleared.tables, other, r);
    }
  }

  lemma {:induction false} RebuildIsStamp(db: Db, s: Step, patches: Option<set<Patch>>)
    ensures RebuildStep(db, s, patches)
            == Stamp(db.(tables := RebuildStep(db, s, patches).tables), s, ScopeMatches(db, patches))
  {
    hide Keys, Units, Agg, Query;
  }

  lemma {:induction false} TablesDoNotMatter(db: Db, t: Table, s: Step, r: Row)
    ensures r in CountedRows(db.(tables := t), s) <==> r in CountedRows(db, s)
  {
    InCountedRows(db, s, r);
    InCountedRows(db.(tables := t), s, r);
  }

  /** The counted rows outside the rebuilt scope. */
  function OutsideRows(db: Db, s: Step, ms: set<MatchId>): set<Row> {
    set fk | fk in db.facts && Joined(db, fk) && s in Bits(db, fk.mid) && fk.mid !in ms ::
      RowAt(db, s, fk, CountedTier(db, s, fk))
  }

  lemma InOutsideRows(db: Db, s: Step, ms: set<MatchId>, r: Row)
    ensures r in OutsideRows(db, s, ms) <==>
            && IsFactRow(db, s, r) && s in Bits(db, r.mid) && r.mid !in ms
            && r.tier == CountedTier(db, s, FactOf(r))
  {}

  lemma {:induction false} StampOwnRow(db: Db, s: Step, ms: set<MatchId>, r: Row)
    ensures r in CountedRows(Stamp(db, s, ms), s) <==> r in OutsideRows(db, s, ms) || r in RowsNow(db, s, ms)
  {
    InCountedRows(Stamp(db, s, ms), s, r);
    InOutsideRows(db, s, ms, r);
    InRowsNow(db, s, ms, r);
    if Joined(db, FactOf(r)) {
      StampTiers(db, s, ms, s, FactOf(r));
    }
  }

  lemma {:induction false} TablesDoNotMatterHere(db: Db, t: Table, s: Step, ms: set<MatchId>, r: Row)
    ensures r in OutsideRows(db.(tables := t), s, ms) <==> r in OutsideRows(db, s, ms)
    ensures r in RowsNow(db.(tables := t), s, ms) <==> r in RowsNow(db, s, ms)
  {
    InOutsideRows(db, s, ms, r);
    InOutsideRows(db.(tables := t), s, ms, r);
    InRowsNow(db, s, ms, r);
    InRowsNow(db.(tables := t), s, ms, r);
  }

  lemma {:induction false} RebuildSplitsAfter(db: Db, s: Step, patches: Option<set<Patch>>)
    ensures var ms := ScopeMatches(db, patches);
            CountedRows(RebuildStep(db, s, patches), s) == OutsideRows(db, s, ms) + RowsNow(db, s, ms)
  {
    hide Keys, Units, Agg, Stamp, CountedRows, Query, OutsideRows, RowsNow;
    var ms := ScopeMatches(db, patches);
    var cleared := db.(tables := RebuildStep(db, s, patches).tables);
    RebuildIsStamp(db, s, patches);
    forall r ensures r in CountedRows(RebuildStep(db, s, patches), s) <==> r in OutsideRows(db, s, ms) + RowsNow(db, s, ms) {
      StampOwnRow(cleared, s, ms, r);
      TablesDoNotMatterHere(db, cleared.tables, s, ms, r);
    }
  }

  /** The counted rows of the matches of `ms`. */
  function InsideRows(db: Db, s: Step, ms: set<MatchId>): set<Row> {
    set r | r in CountedRows(db, s) && r.mid in ms
  }

  lemma ScopeSplitsBefore(db: Db, s: Step, patches: Option<set<Patch>>)
    ensures var ms := ScopeMatches(db, patches);
            && CountedRows(db, s) == OutsideRows(db, s, ms) + InsideRows(db, s, ms)
            && MatchDisjoint(OutsideRows(db, s, ms), InsideRows(db, s, ms))
            && MatchDisjoint(OutsideRows(db, s, ms), RowsNow(db, s, ms))
            && (forall r | r in OutsideRows(db, s, ms) :: !InScope(patches, r.info.patch))
            && (forall r | r in InsideRows(db, s, ms) :: InScope(patches, r.info.patch))
            && (forall r | r in RowsNow(db, s, ms) :: InScope(patches, r.info.patch))
  {}

  /** Inside the scope a group reads the rebuilt rows, outside it the rows counted before. */
  lemma {:induction false} ScopeCell(db: Db, s: Step, patches: Option<set<Patch>>, k: Key, c: nat)
    requires StepOf(k) == s
    ensures var ms := ScopeMatches(db, patches);
            Agg(CountedRows(RebuildStep(db, s, patches), s), k, c)
            == if InScope(patches, k.patch) then Agg(RowsNow(db, s, ms), k, c) else Agg(CountedRows(db, s), k, c)
  {
    hide Keys, Query, RebuildStep, CountedRows, OutsideRows, InsideRows, RowsNow;
    var ms := ScopeMatches(db, patches);
    var outside, was, inside := OutsideRows(db, s, ms), InsideRows(db, s, ms), RowsNow(db, s, ms);
    ScopeSplitsBefore(db, s, patches);
    RebuildSplitsAfter(db, s, patches);
    AggAdditive(outside, was, k, c);
    AggAdditive(outside, inside, k, c);
    if InScope(patches, k.patch) {
      OtherPatches(outside, k, c);
    } else {
      OtherPatches(inside, k, c);
      OtherPatches(was, k, c);
    }
  }

  lemma {:induction false} RebuildRow(db: Db, s: Step, patches: Option<set<Patch>>, k: Key)
    requires StepOf(k) == s
    ensures var after, q := RebuildStep(db, s, patches).tables, Query(s, RowsNow(db, s, ScopeMatches(db, patches)));
            if InScope(patches, k.patch)
            then (k in after <==> k in q) && (k in q ==> after[k] == q[k])
            else (k in after <==> k in db.tables) && (k in db.tables ==> after[k] == db.tables[k])
  {
    var ms := ScopeMatches(db, patches);
    if !InScope(patches, k.patch) {
      OtherPatches(RowsNow(db, s, ms), k, 0);
      KeysAreGroups(s, RowsNow(db, s, ms), k);
    }
  }

  lemma {:induction false} NothingOutside(db: Db, s: Step)
    requires forall fk | fk in db.facts :: fk.mid in db.matches
    ensures OutsideRows(db, s, ScopeMatches(db, None)) == {}
  {
    forall r ensures r !in OutsideRows(db, s, ScopeMatches(db, None)) {
      InCountedRows(db, s, r);
    }
  }

  /** What a rebuild of some patches writes is that part of what a full rebuild would. */
  lemma {:induction false} ScopedIsSlice(db: Db, s: Step, ps: set<Patch>, k: Key, c: nat)
    ensures Agg(RowsNow(db, s, ScopeMatches(db, Some(ps))), k, c)
            == if k.patch in ps then Agg(RowsNow(db, s, db.matches.Keys), k, c) else 0
  {
    hide Agg;
    var all, some := RowsNow(db, s, db.matches.Keys), RowsNow(db, s, ScopeMatches(db, Some(ps)));
    forall r ensures r in some <==> r in OnPatches(all, ps) {
      InRowsNow(db, s, db.matches.Keys, r);
      InRowsNow(db, s, ScopeMatches(db, Some(ps)), r);
    }
    assert some == OnPatches(all, ps);
    PatchLocal(all, ps, k, c);
  }

  lemma {:induction false} FullRebuildListsAll(db: Db, s: Step)
    requires forall fk | fk in db.facts :: fk.mid in db.matches
    ensures AllListed(RebuildStep(db, s, None))
  {
    var after := RebuildStep(db, s, None);
    forall fk | fk in after.facts ensures fk.mid in after.counted {
      assert HasFacts(db, fk.mid);
      assert fk.mid in ScopeMatches(db, None);
    }
  }

  /** Rebuilding a step over every patch makes its tables right, whatever they held. */
  lemma {:induction false} FullRebuildFixes(db: Db, s: Step)
    requires forall fk | fk in db.facts :: fk.mid in db.matches
    ensures StepOk(RebuildStep(db, s, None), s)
  {
    hide Keys, Units, Agg, Query, RebuildStep, CountedRows, RowsNow;
    var after := RebuildStep(db, s, None);
    var rows := RowsNow(db, s, ScopeMatches(db, None));
    var q := Query(s, rows);
    RebuildSplitsAfter(db, s, None);
    NothingOutside(db, s);
    assert CountedRows(after, s) == rows;
    forall k ensures k in Part(after.tables, s) <==> k in q {
      if k in q {
        QueryStaysInStep(s, rows, k);
      }
      if StepOf(k) == s {
        RebuildRow(db, s, None, k);
      }
    }
    forall k | k in q ensures Part(after.tables, s)[k] == q[k] {
      QueryStaysInStep(s, rows, k);
      RebuildRow(db, s, None, k);
    }
    assert Part(after.tables, s) == q;
    FullRebuildListsAll(db, s);
  }

  /** Rebuilding some patches of a step keeps its tables right. */
  lemma {:induction false} ScopedRebuildKeeps(db: Db, s: Step, patches: Option<set<Patch>>)
    requires WellFormed(db) && StepOk(db, s)
    ensures StepOk(RebuildStep(db, s, patches), s)
  {
    hide Keys, Units, Agg, Query, RebuildStep, CountedRows, RowsNow, Part;
    var after := RebuildStep(db, s, patches);
    RebuildWellFormed(db, s, patches);
    RebuildLists(db, s, patches);
    var rows, was, now := CountedRows(after, s), CountedRows(db, s), RowsNow(db, s, ScopeMatches(db, patches));
    forall k | StepOf(k) == s ensures k in after.tables <==> Agg(rows, k, 0) > 0 {
      RebuildRow(db, s, patches, k);
      ScopeCell(db, s, patches, k, 0);
      QueryIsPart(db.tables, s, was, k);
      QueryRow(s, now, k);
      CountColumn(now, k);
    }
    forall k, c | StepOf(k) == s && k in after.tables && 0 <= c < Width(k)
      ensures Cell(after.tables, k, c) == Agg(rows, k, c)
    {
      RebuildRow(db, s, patches, k);
      ScopeCell(db, s, patches, k, c);
      QueryIsPart(db.tables, s, was, k);
      QueryCell(s, now, k, c);
    }
    PartIsQuery(after.tables, s, rows);
  }

  lemma QueryRow(s: Step, rows: set<Row>, k: Key)
    ensures k in Query(s, rows) <==> k in Keys(s, rows)
  {}

  lemma RebuildLists(db: Db, s: Step, patches: Option<set<Patch>>)
    requires AllListed(db)
    ensures AllListed(RebuildStep(db, s, patches))
  {}

  lemma RebuildWellFormed(db: Db, s: Step, patches: Option<set<Patch>>)
    requires WellFormed(db)
    ensures WellFormed(RebuildStep(db, s, patches))
  {}

  /** A rebuild of one step leaves the others as they were. */
  lemma {:induction false} RebuildKeepsOthers(db: Db, s: Step, patches: Option<set<Patch>>, other: Step)
    requires other != s && StepOk(db, other)
    ensures StepOk(RebuildStep(db, s, patches), other)
  {
    OtherTablesUntouched(db, s, patches, other);
    OtherRowsUntouched(db, s, patches, other);
  }
}
