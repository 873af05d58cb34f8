/**
 How a delta batch writes: result sets staged in temporary copies of the tables,
 the totals over tier taken from the staged stats, and one merge at the end.
 */
module Staging {
  import opened Sums
  import opened Tables
  import opened Aggregates
  import opened Ladder
  import opened LadderSteps

  /** The result sets inserted into the staging copies, in order. */
  type Staged = seq<Table>

  predicate InStaged(ts: Staged, k: Key) {
    exists i | 0 <= i < |ts| :: k in ts[i]
  }

  /** `sum(x)` of the staged rows with key `k`. */
  function StagedCell(ts: Staged, k: Key, c: nat): int
    decreases |ts|
  {
    if ts == [] then 0 else StagedCell(ts[..|ts| - 1], k, c) + Cell(ts[|ts| - 1], k, c)
  }

  function StagedKeys(ts: Staged): set<Key> {
    set i, k | 0 <= i < |ts| && k in ts[i] :: k
  }

  /** `Sign::Minus`: a result set with every sum negated. */
  function Negated(t: Table): Table {
    map k | k in t :: seq(|t[k]|, i requires 0 <= i < |t[k]| => -t[k][i])
  }

  predicate Widths(t: Table) {
    forall k | k in t :: |t[k]| == Width(k)
  }

  /** `INSERT … ON CONFLICT DO UPDATE`: the staged rows, grouped and added to the table's. */
  function Upsert(t: Table, ts: Staged): Table {
    map k | k in t.Keys + StagedKeys(ts) :: seq(Width(k), (c: nat) => Cell(t, k, c) + StagedCell(ts, k, c))
  }

  /** `DELETE … WHERE count <= 0` among the staged keys. */
  function Cleaned(t: Table, ts: Staged): Table {
    map k | k in t && !(k in StagedKeys(ts) && Cell(t, k, 0) <= 0) :: t[k]
  }

  /** The staged stats keys of one totals row. */
  function StagedStats(ts: Staged, k: Key): set<Key>
    requires k.StatTotal?
  {
    set s | s in StagedKeys(ts) && s.Stat? && Untiered(s) == k
  }

  function StagedColumn(ts: Staged, c: nat): Key -> int {
    (k: Key) => StagedCell(ts, k, c)
  }

  /** `totals_from("temp.delta_champion_stats")`: the staged stats rows, either sign, summed over tier. */
  ghost function StagedTotals(ts: Staged): Table {
    map k | k in (set s | s in StagedKeys(ts) && s.Stat? :: Untiered(s)) ::
      StagedVector(ts, k)
  }

  ghost function StagedVector(ts: Staged, k: Key): seq<int>
    requires k.StatTotal?
  {
    seq(Width(k), (c: nat) => Sum(StagedStats(ts, k), StagedColumn(ts, c)))
  }

  lemma {:induction false} StagedAppend(ts: Staged, t: Table, k: Key, c: nat)
    ensures StagedCell(ts + [t], k, c) == StagedCell(ts, k, c) + Cell(t, k, c)
    ensures InStaged(ts + [t], k) <==> InStaged(ts, k) || k in t
  {
    assert (ts + [t])[..|ts + [t]| - 1] == ts;
    assert (ts + [t])[|ts|] == t;
    if i :| 0 <= i < |ts| && k in ts[i] {
      assert (ts + [t])[i] == ts[i];
    }
  }

  lemma InStagedKeys(ts: Staged, k: Key)
    ensures k in StagedKeys(ts) <==> InStaged(ts, k)
  {}

  lemma {:induction false} NotStaged(ts: Staged, k: Key, c: nat)
    requires !InStaged(ts, k)
    ensures StagedCell(ts, k, c) == 0
    decreases |ts|
  {
    if ts != [] {
      var init := ts[..|ts| - 1];
      assert k !in ts[|ts| - 1];
      assert forall i | 0 <= i < |init| :: init[i] == ts[i];
      NotStaged(init, k, c);
    }
  }

  lemma NegatedCell(t: Table, k: Key, c: nat)
    ensures Cell(Negated(t), k, c) == -Cell(t, k, c)
  {}

  // ── The batch, step by step ───────────────────────────────────────────────

  /** Written by the first `i` steps: all but the totals, which come last. */
  predicate Done(k: Key, i: nat)
    requires i <= |STEPS|
  {
    StepOf(k) in STEPS[..i] && !k.StatTotal?
  }

  /** Whether the batch stages the row. The stats are always staged, the rest only when counts are taken back. */
  ghost predicate Stages(db: Db, batch: set<MatchId>, k: Key) {
    Touched(db, batch, k) && (TakingBack(db, batch) || k.Stat?)
  }

  /** Whether the batch upserts the row as soon as its step runs. */
  ghost predicate UpsertsNow(db: Db, batch: set<MatchId>, k: Key) {
    Touched(db, batch, k) && !TakingBack(db, batch) && !k.Stat?
  }

  /** After `i` steps of a batch: what is in the tables and what is staged make up those steps' net change. */
  ghost predicate Progress(db: Db, batch: set<MatchId>, i: nat, tabs: Table, staged: Staged)
    requires i <= |STEPS|
  {
    && Widths(tabs)
    && (forall k :: InStaged(staged, k) <==> Done(k, i) && Stages(db, batch, k))
    && (forall k :: k in tabs <==> k in db.tables || (Done(k, i) && UpsertsNow(db, batch, k)))
    && (forall k, c | 0 <= c < Width(k) ::
          Cell(tabs, k, c) == Cell(db.tables, k, c) + if Done(k, i) && UpsertsNow(db, batch, k) then Net(db, batch, k, c) else 0)
    && (forall k, c | 0 <= c < Width(k) ::
          StagedCell(staged, k, c) == if Done(k, i) && Stages(db, batch, k) then Net(db, batch, k, c) else 0)
  }

  lemma {:induction false} DoneNext(k: Key, i: nat)
    requires i < |STEPS|
    ensures Done(k, i + 1) <==> Done(k, i) || (StepOf(k) == STEPS[i] && !k.StatTotal?)
    ensures StepOf(k) == STEPS[i] ==> !Done(k, i)
  {
    assert STEPS[..i + 1] == STEPS[..i] + [STEPS[i]];
  }

  lemma {:induction false} AllDone(k: Key)
    ensures Done(k, 6) <==> !k.StatTotal?
  {
    assert STEPS[..6] == STEPS;
    EveryStep(StepOf(k));
    assert forall s | s in ALL_STEPS :: s in STEPS by {
      assert STEPS[0] == Champions && STEPS[1] == Matchups && STEPS[2] == Items;
      assert STEPS[3] == Runes && STEPS[4] == Spells && STEPS[5] == Sets;
    }
  }

  lemma {:induction false} DirectRow(s: Step, rows: set<Row>, k: Key, c: nat)
    requires c < Width(k)
    ensures k in Direct(s, rows) <==> StepOf(k) == s && !k.StatTotal? && k in Keys(s, rows)
    ensures Cell(Direct(s, rows), k, c) == if StepOf(k) == s && !k.StatTotal? then Agg(rows, k, c) else 0
    ensures k in Direct(s, rows) ==> |Direct(s, rows)[k]| == Width(k)
  {
    KeysAreGroups(s, rows, k);
    if StepOf(k) == s {
      QueryCell(s, rows, k, c);
    }
  }

  /** A step that has nothing to take back stages nothing negative. */
  lemma {:induction false} NoSubRows(db: Db, batch: set<MatchId>, s: Step)
    requires !exists m | m in batch :: Sub(db, batch, m, s)
    ensures SubRows(db, batch, s) == {}
  {
    forall r ensures r !in SubRows(db, batch, s) {
      InSubRows(db, batch, s, r);
    }
  }

  /** A step of a batch that takes counts back: its old counts negated, then its new ones. */
  lemma {:induction false} StageStep(db: Db, batch: set<MatchId>, i: nat, tabs: Table, staged: Staged)
    requires i < |STEPS| && TakingBack(db, batch) && Progress(db, batch, i, tabs, staged)
    ensures var s := STEPS[i];
            Progress(db, batch, i + 1, tabs,
                     staged + [Negated(Direct(s, SubRows(db, batch, s)))] + [Direct(s, NewRows(db, batch, s))])
  {
    hide Keys, Units, Agg, Direct, Negated, StagedCell, SubRows, NewRows, TakingBack;
    var s := STEPS[i];
    var taken, added := Direct(s, SubRows(db, batch, s)), Direct(s, NewRows(db, batch, s));
    var one := staged + [Negated(taken)];
    forall k ensures InStaged(one + [added], k) <==> Done(k, i + 1) && Stages(db, batch, k) {
      StageRow(db, batch, i, staged, k, 0);
    }
    forall k, c | 0 <= c < Width(k)
      ensures StagedCell(one + [added], k, c) == if Done(k, i + 1) && Stages(db, batch, k) then Net(db, batch, k, c) else 0
    {
      StageRow(db, batch, i, staged, k, c);
    }
    forall k ensures Done(k, i) ==> Done(k, i + 1) {
      DoneNext(k, i);
    }
  }

  lemma {:induction false} StageRow(db: Db, batch: set<MatchId>, i: nat, staged: Staged, k: Key, c: nat)
    requires i < |STEPS| && TakingBack(db, batch) && c < Width(k)
    requires InStaged(staged, k) <==> Done(k, i) && Stages(db, batch, k)
    requires StagedCell(staged, k, c) == if Done(k, i) && Stages(db, batch, k) then Net(db, batch, k, c) else 0
    ensures var s := STEPS[i];
            var after := staged + [Negated(Direct(s, SubRows(db, batch, s)))] + [Direct(s, NewRows(db, batch, s))];
            && (InStaged(after, k) <==> Done(k, i + 1) && Stages(db, batch, k))
            && StagedCell(after, k, c) == (if Done(k, i + 1) && Stages(db, batch, k) then Net(db, batch, k, c) else 0)
  {
    hide Keys, Units, Agg, Direct, SubRows, NewRows, TakingBack;
    var s := STEPS[i];
    var taken, added := Direct(s, SubRows(db, batch, s)), Direct(s, NewRows(db, batch, s));
    StagedAppend(staged, Negated(taken), k, c);
    StagedAppend(staged + [Negated(taken)], added, k, c);
    NegatedCell(taken, k, c);
    DirectRow(s, SubRows(db, batch, s), k, c);
    DirectRow(s, NewRows(db, batch, s), k, c);
    DoneNext(k, i);
    if !Touched(db, batch, k) {
      UntouchedNet(db, batch, k, c);
    }
  }

  /** The stats rows of a result set, and the rest of it. */
  function StatsOf(t: Table): Table {
    map k | k in t && k.Stat? :: t[k]
  }

  function NotStatsOf(t: Table): Table {
    map k | k in t && !k.Stat? :: t[k]
  }

  /** A step of a batch that only adds: the stats staged, the rest upserted straight away. */
  lemma {:induction false} UpsertStep(db: Db, batch: set<MatchId>, i: nat, tabs: Table, staged: Staged)
    requires i < |STEPS| && !TakingBack(db, batch) && Progress(db, batch, i, tabs, staged)
    ensures var d := Direct(STEPS[i], NewRows(db, batch, STEPS[i]));
            Progress(db, batch, i + 1, Upsert(tabs, [NotStatsOf(d)]), staged + [StatsOf(d)])
  {
    hide Keys, Units, Agg, Direct, StagedCell, SubRows, NewRows, TakingBack, Upsert, StatsOf, NotStatsOf;
    var d := Direct(STEPS[i], NewRows(db, batch, STEPS[i]));
    var tabs', staged' := Upsert(tabs, [NotStatsOf(d)]), staged + [StatsOf(d)];
    forall k ensures InStaged(staged', k) <==> Done(k, i + 1) && Stages(db, batch, k) {
      UpsertRow(db, batch, i, tabs, staged, k, 0);
    }
    forall k ensures k in tabs' <==> k in db.tables || (Done(k, i + 1) && UpsertsNow(db, batch, k)) {
      UpsertRow(db, batch, i, tabs, staged, k, 0);
    }
    forall k | k in tabs' ensures |tabs'[k]| == Width(k) {
      UpsertRow(db, batch, i, tabs, staged, k, 0);
    }
    forall k, c | 0 <= c < Width(k)
      ensures StagedCell(staged', k, c) == if Done(k, i + 1) && Stages(db, batch, k) then Net(db, batch, k, c) else 0
    {
      UpsertRow(db, batch, i, tabs, staged, k, c);
    }
    forall k, c | 0 <= c < Width(k)
      ensures Cell(tabs', k, c) == Cell(db.tables, k, c)
                                   + if Done(k, i + 1) && UpsertsNow(db, batch, k) then Net(db, batch, k, c) else 0
    {
      UpsertRow(db, batch, i, tabs, staged, k, c);
    }
  }

  lemma {:induction false} AddOnlyNet(db: Db, batch: set<MatchId>, k: Key, c: nat)
    requires !TakingBack(db, batch)
    ensures Net(db, batch, k, c) == Agg(NewRows(db, batch, StepOf(k)), k, c)
    ensures Touched(db, batch, k) <==> k in Keys(StepOf(k), NewRows(db, batch, StepOf(k)))
  {
    NothingTakenBack(db, batch, StepOf(k));
    AggEmpty(k, c);
    AggEmpty(k, 0);
    CountColumn({}, k);
  }

  lemma {:induction false} UpsertCell(t: Table, ts: Staged, k: Key)
    ensures k in Upsert(t, ts) <==> k in t || k in StagedKeys(ts)
    ensures k in Upsert(t, ts) ==> |Upsert(t, ts)[k]| == Width(k)
    ensures forall c | 0 <= c < Width(k) && k in Upsert(t, ts) :: Cell(Upsert(t, ts), k, c) == Cell(t, k, c) + StagedCell(ts, k, c)
  {
    hide StagedKeys, StagedCell;
  }

  lemma {:induction false} StagedOne(d: Table, k: Key, c: nat)
    ensures k in StagedKeys([d]) <==> k in d
    ensures StagedCell([d], k, c) == Cell(d, k, c)
  {
    assert [d] == [] + [d];
    StagedAppend([], d, k, c);
    InStagedKeys([d], k);
  }

  /** One row of an upsert of one result set. */
  lemma {:induction false} UpsertOne(t: Table, d: Table, k: Key)
    ensures k in Upsert(t, [d]) <==> k in t || k in d
    ensures k in Upsert(t, [d]) ==> |Upsert(t, [d])[k]| == Width(k)
    ensures forall c | 0 <= c < Width(k) :: Cell(Upsert(t, [d]), k, c) == Cell(t, k, c) + Cell(d, k, c)
  {
    hide Upsert, StagedKeys, StagedCell;
    UpsertCell(t, [d], k);
    StagedOne(d, k, 0);
    forall c | 0 <= c < Width(k) ensures Cell(Upsert(t, [d]), k, c) == Cell(t, k, c) + Cell(d, k, c) {
      StagedOne(d, k, c);
    }
  }

  lemma {:induction false} UpsertRow(db: Db, batch: set<MatchId>, i: nat, tabs: Table, staged: Staged, k: Key, c: nat)
    requires i < |STEPS| && !TakingBack(db, batch) && c < Width(k) && Progress(db, batch, i, tabs, staged)
    ensures var d := Direct(STEPS[i], NewRows(db, batch, STEPS[i]));
            var tabs', staged' := Upsert(tabs, [NotStatsOf(d)]), staged + [StatsOf(d)];
            && (InStaged(staged', k) <==> Done(k, i + 1) && Stages(db, batch, k))
            && (k in tabs' <==> k in db.tables || (Done(k, i + 1) && UpsertsNow(db, batch, k)))
            && (k in tabs' ==> |tabs'[k]| == Width(k))
            && StagedCell(staged', k, c) == (if Done(k, i + 1) && Stages(db, batch, k) then Net(db, batch, k, c) else 0)
            && Cell(tabs', k, c) == Cell(db.tables, k, c)
                                    + (if Done(k, i + 1) && UpsertsNow(db, batch, k) then Net(db, batch, k, c) else 0)
  {
    hide Keys, Units, Agg, Direct, NewRows, TakingBack, Upsert, SubRows, StagedCell, InStaged, Done, Net, StepOf, Touched;
    var s := STEPS[i];
    var d := Direct(s, NewRows(db, batch, s));
    StagedAppend(staged, StatsOf(d), k, c);
    UpsertOne(tabs, NotStatsOf(d), k);
    DirectRow(s, NewRows(db, batch, s), k, c);
    AddOnlyNet(db, batch, k, c);
    DoneNext(k, i);
    if !Touched(db, batch, k) {
      UntouchedNet(db, batch, k, c);
    }
  }

  // ── The totals and the merge ──────────────────────────────────────────────

  /** The staged stats of a totals row add up to its net change. */
  lemma {:induction false} StagedTotalIsNet(db: Db, batch: set<MatchId>, staged: Staged, k: Key, c: nat)
    requires k.StatTotal? && c < 12
    requires forall s: Key | s.Stat? :: InStaged(staged, s) <==> Touched(db, batch, s)
    requires forall s: Key | s.Stat? :: StagedCell(staged, s, c) == Net(db, batch, s, c)
    ensures Sum(StagedStats(staged, k), StagedColumn(staged, c)) == Net(db, batch, k, c)
  {
    hide Keys, Units, Agg, Direct, NewRows, SubRows, StagedCell;
    var stats := StagedStats(staged, k);
    var added, taken := Direct(Champions, NewRows(db, batch, Champions)), Direct(Champions, SubRows(db, batch, Champions));
    forall s: Key | s.Stat? ensures (s in stats <==> Untiered(s) == k && Touched(db, batch, s)) {
      InStagedKeys(staged, s);
    }
    forall s: Key | s.Stat?
      ensures StagedCell(staged, s, c) == Cell(added, s, c) - Cell(taken, s, c)
      ensures s in added || s in taken <==> Touched(db, batch, s)
    {
      DirectRow(Champions, NewRows(db, batch, Champions), s, c);
      DirectRow(Champions, SubRows(db, batch, Champions), s, c);
    }
    SumPlus(stats, StagedColumn(staged, c), Column(taken, c), Column(added, c));
    SumSupport(StatRows(added, k), stats, Column(added, c));
    SumSupport(StatRows(taken, k), stats, Column(taken, c));
    TotalsAreUntiered(NewRows(db, batch, Champions), k, c);
    TotalsAreUntiered(SubRows(db, batch, Champions), k, c);
  }

  /** A totals row is touched exactly when one of its stats rows is. */
  lemma {:induction false} TotalTouched(db: Db, batch: set<MatchId>, k: Key)
    requires k.StatTotal?
    ensures Touched(db, batch, k) <==> exists s: Key :: s.Stat? && Untiered(s) == k && Touched(db, batch, s)
  {
    hide Keys, NewRows, SubRows;
    TotalGroup(NewRows(db, batch, Champions), k);
    TotalGroup(SubRows(db, batch, Champions), k);
  }

  /** A totals row is selected exactly when one of its stats rows is. */
  lemma {:induction false} TotalGroup(rows: set<Row>, k: Key)
    requires k.StatTotal?
    ensures k in Keys(Champions, rows) <==> exists s: Key :: s.Stat? && Untiered(s) == k && s in Keys(Champions, rows)
  {
    hide Keys, Units, Agg, TotalVector, Vector;
    TotalKeys(rows, k);
    forall s: Key | s.Stat? ensures s in Direct(Champions, rows) <==> s in Keys(Champions, rows) {
      DirectRow(Champions, rows, s, 0);
    }
  }

  /** With all six steps done and the totals staged, merging gives the batch's tables. */
  lemma {:induction false} MergeRow(db: Db, batch: set<MatchId>, tabs: Table, staged: Staged, k: Key)
    requires Progress(db, batch, 6, tabs, staged)
    ensures var all := staged + [StagedTotals(staged)];
            && (InStaged(all, k) <==> Touched(db, batch, k) && (TakingBack(db, batch) || k.Stat? || k.StatTotal?))
            && (forall c | 0 <= c < Width(k) ::
                  Cell(tabs, k, c) + StagedCell(all, k, c) == Cell(db.tables, k, c) + Net(db, batch, k, c))
  {
    hide Keys, Units, Agg, NewRows, SubRows, StagedCell, TakingBack, Touched;
    var totals := StagedTotals(staged);
    AllDone(k);
    StagedAppend(staged, totals, k, 0);
    if k.StatTotal? {
      TotalMerge(db, batch, tabs, staged, k);
    } else {
      forall c | 0 <= c < Width(k)
        ensures Cell(tabs, k, c) + StagedCell(staged + [totals], k, c) == Cell(db.tables, k, c) + Net(db, batch, k, c)
      {
        StagedAppend(staged, totals, k, c);
        if !Touched(db, batch, k) {
          UntouchedNet(db, batch, k, c);
        }
      }
    }
  }

  lemma {:induction false} TotalMerge(db: Db, batch: set<MatchId>, tabs: Table, staged: Staged, k: Key)
    requires k.StatTotal? && Progress(db, batch, 6, tabs, staged)
    ensures k in StagedTotals(staged) <==> Touched(db, batch, k)
    ensures forall c | 0 <= c < Width(k) ::
              StagedCell(staged + [StagedTotals(staged)], k, c) == Net(db, batch, k, c)
              && Cell(tabs, k, c) == Cell(db.tables, k, c)
  {
    hide Keys, Units, Agg, NewRows, SubRows, StagedCell, TakingBack, Touched, InStaged, StagedTotals;
    var totals := StagedTotals(staged);
    forall s: Key | s.Stat?
      ensures InStaged(staged, s) <==> Touched(db, batch, s)
      ensures forall c | 0 <= c < 12 :: StagedCell(staged, s, c) == Net(db, batch, s, c)
    {
      AllDone(s);
      forall c | 0 <= c < 12 ensures StagedCell(staged, s, c) == Net(db, batch, s, c) {
        if !Touched(db, batch, s) {
          UntouchedNet(db, batch, s, c);
        }
      }
    }
    TotalStaged(db, batch, staged, k);
    AllDone(k);
    forall c | 0 <= c < Width(k)
      ensures StagedCell(staged + [totals], k, c) == Net(db, batch, k, c) && Cell(tabs, k, c) == Cell(db.tables, k, c)
    {
      StagedAppend(staged, totals, k, c);
      if k in totals {
        StagedTotalIsNet(db, batch, staged, k, c);
        StagedTotalCell(staged, k, c);
      } else {
        UntouchedNet(db, batch, k, c);
      }
    }
  }

  lemma StagedTotalCell(staged: Staged, k: Key, c: nat)
    requires k.StatTotal? && k in StagedTotals(staged) && c < 12
    ensures Cell(StagedTotals(staged), k, c) == Sum(StagedStats(staged, k), StagedColumn(staged, c))
  {}

  /** The staged totals have a row exactly where the batch touches one. */
  lemma {:induction false} TotalStaged(db: Db, batch: set<MatchId>, staged: Staged, k: Key)
    requires k.StatTotal?
    requires forall s: Key | s.Stat? :: InStaged(staged, s) <==> Touched(db, batch, s)
    ensures k in StagedTotals(staged) <==> Touched(db, batch, k)
  {
    hide Touched, InStaged, StagedKeys, StagedVector;
    TotalTouched(db, batch, k);
    if Touched(db, batch, k) {
      var s: Key :| s.Stat? && Untiered(s) == k && Touched(db, batch, s);
      InStagedKeys(staged, s);
    }
    if k in StagedTotals(staged) {
      var s :| s in StagedKeys(staged) && s.Stat? && Untiered(s) == k;
      InStagedKeys(staged, s);
    }
  }

  /** The merge, and the deletion of the rows it emptied, is the batch's table. */
  lemma {:induction false} MergeIsBatch(db: Db, batch: set<MatchId>, tabs: Table, staged: Staged)
    requires Progress(db, batch, 6, tabs, staged) && Widths(db.tables)
    ensures var all := staged + [StagedTotals(staged)];
            var merged := Upsert(tabs, all);
            BatchTables(db, batch) == if TakingBack(db, batch) then Cleaned(merged, all) else merged
  {
    hide Keys, Units, Agg, NewRows, SubRows, StagedCell, TakingBack, Touched, StagedTotals, BatchTables, StagedKeys, Net, Upsert;
    var all := staged + [StagedTotals(staged)];
    var merged := Upsert(tabs, all);
    var final := if TakingBack(db, batch) then Cleaned(merged, all) else merged;
    forall k
      ensures k in final <==> k in BatchTables(db, batch)
      ensures k in final && k in BatchTables(db, batch) ==> final[k] == BatchTables(db, batch)[k]
    {
      MergeRow(db, batch, tabs, staged, k);
      InStagedKeys(all, k);
      BatchRow(db, batch, k);
      AllDone(k);
      UpsertCell(tabs, all, k);
      assert k in merged <==> k in db.tables || Touched(db, batch, k);
      if k in final && k in BatchTables(db, batch) {
        forall c | 0 <= c < Width(k) ensures final[k][c] == BatchTables(db, batch)[k][c] {
          assert Cell(BatchTables(db, batch), k, c) == BatchTables(db, batch)[k][c];
        }
      }
    }
  }
}
