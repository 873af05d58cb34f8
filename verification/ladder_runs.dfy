/**
 Every run of a ladder: archive writes, tier moves, set builds, delta batches,
 patch-limited rebuild steps and any number of overlapping full rebuilds, in any
 order. Whenever deltas may run, every step's tables are what it has counted.
 */
module LadderRuns {
  import opened Wrappers
  import opened Tables
  import opened Aggregates
  import opened Ladder
  import opened LadderSteps

  /** A full rebuild under way: when it began and the steps it has rebuilt over every patch. */
  datatype Run = Run(started: int, done: set<Step>)

  datatype World = World(db: Db, clock: int, runs: map<nat, Run>)

  datatype Event =
    | FactsWritten(m: MatchId, info: MatchInfo, facts: map<Puuid, Columns>, at: int)
    | TierMoved(fk: FactKey, tier: Option<Tier>)
    | BuildsWritten(m: MatchId, rows: map<Puuid, Facets>, at: int)
    | BatchCounted(batch: set<MatchId>)
    | StepRebuilt(s: Step, patches: Option<set<Patch>>)
    | RunStarted(id: nat, at: int)
    | RunStepDone(id: nat, s: Step)
    | RunFinished(id: nat, at: int)

  /** Completed matches are immutable: re-archiving a counted match of the current version writes the same rows. */
  predicate Immutable(db: Db, m: MatchId, info: MatchInfo, facts: map<Puuid, Columns>) {
    Current(db, m) && Bits(db, m) != {} ==>
      WriteFacts(db, m, info, facts, 0).facts == db.facts && WriteFacts(db, m, info, facts, 0).matches == db.matches
  }

  /** The clock never runs backwards, and a full rebuild ends once it has rebuilt all six steps. */
  predicate Enabled(w: World, e: Event) {
    match e
    case FactsWritten(m, info, facts, at) => w.clock <= at && Immutable(w.db, m, info, facts)
    case TierMoved(_, _) => true
    case BuildsWritten(_, _, at) => w.clock <= at
    case BatchCounted(_) => true
    case StepRebuilt(_, _) => true
    case RunStarted(id, at) => w.clock <= at && id !in w.runs
    case RunStepDone(id, _) => id in w.runs
    case RunFinished(id, at) => w.clock <= at && id in w.runs && w.runs[id].done == ALL_STEPS
  }

  ghost function Next(w: World, e: Event): World
    requires Enabled(w, e)
  {
    match e
    case FactsWritten(m, info, facts, at) => w.(db := WriteFacts(w.db, m, info, facts, at), clock := at)
    case TierMoved(fk, tier) => w.(db := MoveTier(w.db, fk, tier))
    case BuildsWritten(m, rows, at) => w.(db := WriteBuilds(w.db, m, rows, at), clock := at)
    case BatchCounted(batch) => w.(db := CountBatch(w.db, batch))
    case StepRebuilt(s, patches) => w.(db := RebuildStep(w.db, s, patches))
    case RunStarted(id, at) => w.(clock := at, runs := w.runs[id := Run(at, {})])
    case RunStepDone(id, s) =>
      w.(db := RebuildStep(w.db, s, None), runs := w.runs[id := w.runs[id].(done := w.runs[id].done + {s})])
    case RunFinished(id, at) => w.(db := MarkStamped(w.db, w.runs[id].started, at), clock := at)
  }

  /** A run of events, each enabled where it happens. */
  ghost predicate Runs(w: World, es: seq<Event>)
    decreases |es|
  {
    es == [] || (Enabled(w, es[0]) && Runs(Next(w, es[0]), es[1..]))
  }

  ghost function After(w: World, es: seq<Event>): World
    requires Runs(w, es)
    decreases |es|
  {
    if es == [] then w else After(Next(w, es[0]), es[1..])
  }

  /** As migration V0029 leaves it: any archive, any tables, nothing counted, nothing stamped. */
  ghost predicate Initial(w: World) {
    && w.runs == map[] && w.db.counted == map[] && w.db.retract == map[]
    && w.db.stampedAt.None? && w.db.dirtyAt.None?
    && (forall fk | fk in w.db.facts :: fk.mid in w.db.matches)
    && (forall k | k in w.db.tables :: |w.db.tables[k]| == Width(k))
  }

  /** A step is right, or the ladder was made dirty at or after `since`. */
  ghost predicate OkSince(db: Db, s: Step, since: int) {
    StepOk(db, s) || (db.dirtyAt.Some? && db.dirtyAt.value >= since)
  }

  ghost predicate Inv(w: World) {
    && WellFormed(w.db)
    && (forall fk | fk in w.db.facts :: fk.mid in w.db.matches)
    && (w.db.dirtyAt.Some? ==> w.db.dirtyAt.value <= w.clock)
    && (Ready(w.db) ==> Consistent(w.db))
    && (forall id | id in w.runs :: w.runs[id].started <= w.clock)
    && (forall id, s | id in w.runs && s in w.runs[id].done :: OkSince(w.db, s, w.runs[id].started))
  }

  // ── What each write keeps ─────────────────────────────────────────────────

  /** A transition that neither dirties the ladder nor changes what a step has counted keeps the step right. */
  lemma StepOkSame(a: Db, b: Db, s: Step)
    requires StepOk(a, s)
    requires a.tables == b.tables && CountedRows(a, s) == CountedRows(b, s) && AllListed(b)
    ensures StepOk(b, s)
  {}

  lemma {:induction false} FactsKeepRow(db: Db, m: MatchId, info: MatchInfo, facts: map<Puuid, Columns>, now: int, s: Step, r: Row)
    requires Bits(db, m) == {}
    ensures r in CountedRows(WriteFacts(db, m, info, facts, now), s) <==> r in CountedRows(db, s)
  {
    var after := WriteFacts(db, m, info, facts, now);
    InCountedRows(after, s, r);
    InCountedRows(db, s, r);
    assert Bits(after, r.mid) == Bits(db, r.mid);
    if r.mid != m {
      assert Joined(after, FactOf(r)) <==> Joined(db, FactOf(r));
    }
  }

  lemma {:induction false} FactsKeepRows(db: Db, m: MatchId, info: MatchInfo, facts: map<Puuid, Columns>, now: int, s: Step)
    requires Immutable(db, m, info, facts) && !Rewrites(db, m)
    ensures CountedRows(WriteFacts(db, m, info, facts, now), s) == CountedRows(db, s)
  {
    var after := WriteFacts(db, m, info, facts, now);
    if Bits(db, m) != {} {
      assert after == db;
    } else {
      hide CountedRows, WriteFacts;
      forall r ensures r in CountedRows(after, s) <==> r in CountedRows(db, s) {
        FactsKeepRow(db, m, info, facts, now, s, r);
      }
    }
  }

  /** Archiving a match no step counts, or the same match again, changes nothing any step has counted. */
  lemma {:induction false} FactsKeepStep(db: Db, m: MatchId, info: MatchInfo, facts: map<Puuid, Columns>, now: int, s: Step)
    requires Immutable(db, m, info, facts) && !Rewrites(db, m) && StepOk(db, s)
    ensures StepOk(WriteFacts(db, m, info, facts, now), s)
  {
    hide Keys, Units, Agg, Query, CountedRows;
    FactsKeepRows(db, m, info, facts, now, s);
    StepOkSame(db, WriteFacts(db, m, info, facts, now), s);
  }

  lemma {:induction false} TierKeepsRow(db: Db, fk: FactKey, tier: Option<Tier>, s: Step, r: Row)
    ensures r in CountedRows(MoveTier(db, fk, tier), s) <==> r in CountedRows(db, s)
  {
    InCountedRows(MoveTier(db, fk, tier), s, r);
    InCountedRows(db, s, r);
    if Joined(db, FactOf(r)) && s in Bits(db, r.mid) {
      TierKeepsTier(db, fk, tier, s, FactOf(r));
    }
  }

  /** The tier a step counted a player at does not move with the player's tier. */
  lemma TierKeepsTier(db: Db, fk: FactKey, tier: Option<Tier>, s: Step, at: FactKey)
    requires at in db.facts && s in Bits(db, at.mid)
    ensures at in MoveTier(db, fk, tier).facts
    ensures CountedTier(MoveTier(db, fk, tier), s, at) == CountedTier(db, s, at)
  {}

  /** A tier that moves leaves what every step counted where it was: the retract row remembers the first tier. */
  lemma {:induction false} TierKeepsStep(db: Db, fk: FactKey, tier: Option<Tier>, s: Step)
    requires StepOk(db, s)
    ensures StepOk(MoveTier(db, fk, tier), s)
  {
    hide Keys, Units, Agg, Query, CountedRows;
    var after := MoveTier(db, fk, tier);
    forall r ensures r in CountedRows(after, s) <==> r in CountedRows(db, s) {
      TierKeepsRow(db, fk, tier, s, r);
    }
    StepOkSame(db, after, s);
  }

  lemma TierWellFormed(db: Db, fk: FactKey, tier: Option<Tier>)
    requires WellFormed(db)
    ensures WellFormed(MoveTier(db, fk, tier))
  {}

  /** Set builds leave the facts, and every other step's marks, as they are. */
  lemma {:induction false} BuildsKeepMarks(db: Db, m: MatchId, rows: map<Puuid, Facets>, now: int)
    ensures var after := WriteBuilds(db, m, rows, now);
            && after.facts == db.facts && after.matches == db.matches && after.tables == db.tables
            && after.counted.Keys == db.counted.Keys
  {
    hide ReplacedBuilds, HasBuilds, ForgottenSets;
  }

  lemma {:induction false} BuildsKeepBits(db: Db, m: MatchId, rows: map<Puuid, Facets>, now: int, s: Step, i: MatchId)
    requires s != Sets
    ensures s in Bits(WriteBuilds(db, m, rows, now), i) <==> s in Bits(db, i)
  {
    hide ReplacedBuilds, HasBuilds, ForgottenSets;
  }

  lemma {:induction false} BuildsKeepRetract(db: Db, m: MatchId, rows: map<Puuid, Facets>, now: int, rk: RetractKey)
    requires rk.step != Sets
    ensures rk in WriteBuilds(db, m, rows, now).retract <==> rk in db.retract
    ensures rk in db.retract ==> WriteBuilds(db, m, rows, now).retract[rk] == db.retract[rk]
  {
    hide ReplacedBuilds, HasBuilds, WithoutSets;
  }

  lemma {:induction false} BuildsKeepRow(db: Db, m: MatchId, rows: map<Puuid, Facets>, now: int, s: Step, r: Row)
    requires s != Sets
    ensures r in CountedRows(WriteBuilds(db, m, rows, now), s) <==> r in CountedRows(db, s)
  {
    hide WriteBuilds, CountedRows, Bits;
    var after := WriteBuilds(db, m, rows, now);
    BuildsKeepMarks(db, m, rows, now);
    BuildsKeepBits(db, m, rows, now, s, r.mid);
    BuildsKeepRetract(db, m, rows, now, RetractKey(r.mid, r.puuid, s));
    InCountedRows(after, s, r);
    InCountedRows(db, s, r);
    if Joined(db, FactOf(r)) {
      assert CountedTier(after, s, FactOf(r)) == CountedTier(db, s, FactOf(r));
    }
  }

  lemma {:induction false} BuildsKeepOthers(db: Db, m: MatchId, rows: map<Puuid, Facets>, now: int, s: Step)
    requires s != Sets && StepOk(db, s)
    ensures StepOk(WriteBuilds(db, m, rows, now), s)
  {
    hide Keys, Units, Agg, Query, CountedRows, WriteBuilds, Part;
    var after := WriteBuilds(db, m, rows, now);
    BuildsKeepMarks(db, m, rows, now);
    forall r ensures r in CountedRows(after, s) <==> r in CountedRows(db, s) {
      BuildsKeepRow(db, m, rows, now, s, r);
    }
    StepOkSame(db, after, s);
  }

  /** Rows of step `s` of matches other than `m`. */
  function Elsewhere(db: Db, m: MatchId, s: Step): set<Row> {
    set r | r in CountedRows(db, s) && r.mid != m
  }

  lemma {:induction false} BuildsSetsRow(db: Db, m: MatchId, rows: map<Puuid, Facets>, now: int, r: Row)
    requires !HasBuilds(db, m) || Sets !in Bits(db, m)
    ensures r in CountedRows(WriteBuilds(db, m, rows, now), Sets) <==> r in CountedRows(db, Sets) && r.mid != m
  {
    var after := WriteBuilds(db, m, rows, now);
    InCountedRows(after, Sets, r);
    InCountedRows(db, Sets, r);
    assert Sets in Bits(after, r.mid) <==> Sets in Bits(db, r.mid) && r.mid != m;
    assert r.mid != m ==> (RetractKey(r.mid, r.puuid, Sets) in after.retract <==> RetractKey(r.mid, r.puuid, Sets) in db.retract);
  }

  lemma {:induction false} BuildsLeaveElsewhere(db: Db, m: MatchId, rows: map<Puuid, Facets>, now: int)
    requires !HasBuilds(db, m) || Sets !in Bits(db, m)
    ensures CountedRows(WriteBuilds(db, m, rows, now), Sets) == Elsewhere(db, m, Sets)
  {
    hide CountedRows, WriteBuilds;
    forall r ensures r in CountedRows(WriteBuilds(db, m, rows, now), Sets) <==> r in Elsewhere(db, m, Sets) {
      BuildsSetsRow(db, m, rows, now, r);
    }
  }

  /** A match with no set builds was counted as nothing, so its bit can be cleared without taking anything back. */
  lemma {:induction false} BuildsKeepSets(db: Db, m: MatchId, rows: map<Puuid, Facets>, now: int)
    requires StepOk(db, Sets) && WellFormed(db)
    requires !HasBuilds(db, m) || Sets !in Bits(db, m)
    ensures StepOk(WriteBuilds(db, m, rows, now), Sets)
  {
    hide Keys, Units, Query;
    var after := WriteBuilds(db, m, rows, now);
    var here := OfMatch(CountedRows(db, Sets), m);
    var there := Elsewhere(db, m, Sets);
    BuildsLeaveElsewhere(db, m, rows, now);
    assert CountedRows(db, Sets) == there + here;
    forall r | r in here ensures r.builds == map[] {
      InCountedRows(db, Sets, r);
    }
    forall k: Key, c: nat | StepOf(k) == Sets ensures Agg(there, k, c) == Agg(CountedRows(db, Sets), k, c) {
      AggAdditive(there, here, k, c);
      NoBuildsNoSets(here, k, c);
    }
    forall k | StepOf(k) == Sets
      ensures (k in db.tables <==> Agg(there, k, 0) > 0)
      ensures forall c | 0 <= c < Width(k) :: Cell(db.tables, k, c) == Agg(there, k, c)
    {
      QueryIsPart(db.tables, Sets, CountedRows(db, Sets), k);
    }
    PartIsQuery(db.tables, Sets, there);
  }

  // ── The invariant over every run ──────────────────────────────────────────

  /** Once the ladder is dirty at `at`, every run begun by then waits for another. */
  lemma {:induction false} DirtyKeeps(w: World, after: Db, at: int)
    requires Inv(w) && w.clock <= at
    requires WellFormed(after) && forall fk | fk in after.facts :: fk.mid in after.matches
    requires after.dirtyAt == Some(at)
    ensures Inv(w.(db := after, clock := at))
  {
    hide StepOk, WellFormed, Consistent;
  }

  /** Steps that stay right keep the invariant. */
  lemma {:induction false} StepsKeep(w: World, after: Db, clock: int)
    requires Inv(w) && w.clock <= clock
    requires WellFormed(after) && forall fk | fk in after.facts :: fk.mid in after.matches
    requires after.dirtyAt == w.db.dirtyAt && after.stampedAt == w.db.stampedAt
    requires forall s | StepOk(w.db, s) :: StepOk(after, s)
    ensures Inv(w.(db := after, clock := clock))
  {
    hide StepOk, WellFormed;
  }

  lemma FactsWellFormed(db: Db, m: MatchId, info: MatchInfo, facts: map<Puuid, Columns>, now: int)
    requires WellFormed(db) && forall fk | fk in db.facts :: fk.mid in db.matches
    ensures WellFormed(WriteFacts(db, m, info, facts, now))
    ensures var after := WriteFacts(db, m, info, facts, now); forall fk | fk in after.facts :: fk.mid in after.matches
  {}

  lemma {:induction false} BuildsWellFormed(db: Db, m: MatchId, rows: map<Puuid, Facets>, now: int)
    requires WellFormed(db)
    ensures WellFormed(WriteBuilds(db, m, rows, now))
  {
    hide ReplacedBuilds, HasBuilds;
    var after := WriteBuilds(db, m, rows, now);
    forall rk | rk in after.retract ensures rk.step in Bits(after, rk.mid) {
      assert rk in db.retract && rk.step in Bits(db, rk.mid);
    }
  }

  lemma {:induction false} FactsKeepInv(w: World, e: Event)
    requires Inv(w) && e.FactsWritten? && Enabled(w, e)
    ensures Inv(Next(w, e))
  {
    hide StepOk, WrittenFacts;
    var after := WriteFacts(w.db, e.m, e.info, e.facts, e.at);
    FactsWellFormed(w.db, e.m, e.info, e.facts, e.at);
    if Rewrites(w.db, e.m) {
      DirtyKeeps(w, after, e.at);
    } else {
      forall s | StepOk(w.db, s) ensures StepOk(after, s) {
        FactsKeepStep(w.db, e.m, e.info, e.facts, e.at, s);
      }
      StepsKeep(w, after, e.at);
    }
  }

  lemma {:induction false} BuildsKeepInv(w: World, e: Event)
    requires Inv(w) && e.BuildsWritten? && Enabled(w, e)
    ensures Inv(Next(w, e))
  {
    hide StepOk, ReplacedBuilds, ForgottenSets, WithoutSets;
    var after := WriteBuilds(w.db, e.m, e.rows, e.at);
    BuildsWellFormed(w.db, e.m, e.rows, e.at);
    if HasBuilds(w.db, e.m) && Sets in Bits(w.db, e.m) {
      DirtyKeeps(w, after, e.at);
    } else {
      forall s | StepOk(w.db, s) ensures StepOk(after, s) {
        if s == Sets {
          BuildsKeepSets(w.db, e.m, e.rows, e.at);
        } else {
          BuildsKeepOthers(w.db, e.m, e.rows, e.at, s);
        }
      }
      StepsKeep(w, after, e.at);
    }
  }

  lemma {:induction false} TierKeepsInv(w: World, e: Event)
    requires Inv(w) && e.TierMoved? && Enabled(w, e)
    ensures Inv(Next(w, e))
  {
    hide StepOk;
    var after := MoveTier(w.db, e.fk, e.tier);
    TierWellFormed(w.db, e.fk, e.tier);
    forall s | StepOk(w.db, s) ensures StepOk(after, s) {
      TierKeepsStep(w.db, e.fk, e.tier, s);
    }
    StepsKeep(w, after, w.clock);
  }

  lemma {:induction false} BatchKeepsInv(w: World, e: Event)
    requires Inv(w) && e.BatchCounted? && Enabled(w, e)
    ensures Inv(Next(w, e))
  {
    hide StepOk, BatchTables, WellFormed;
    var after := CountBatch(w.db, e.batch);
    if Ready(w.db) {
      BatchKeeps(w.db, e.batch);
      StepsKeep(w, after, w.clock);
    }
  }

  lemma {:induction false} RebuildKeepsSteps(w: World, s: Step, patches: Option<set<Patch>>)
    requires Inv(w)
    ensures Inv(w.(db := RebuildStep(w.db, s, patches)))
    ensures patches.None? ==> StepOk(RebuildStep(w.db, s, patches), s)
  {
    hide Keys, Units, Agg, Query, CountedRows, WellFormed, StepOk;
    var after := RebuildStep(w.db, s, patches);
    RebuildWellFormed(w.db, s, patches);
    forall t | StepOk(w.db, t) ensures StepOk(after, t) {
      if t == s {
        ScopedRebuildKeeps(w.db, s, patches);
      } else {
        RebuildKeepsOthers(w.db, s, patches, t);
      }
    }
    StepsKeep(w, after, w.clock);
    if patches.None? {
      FullRebuildFixes(w.db, s);
    }
  }

  lemma {:induction false} RunStepKeepsInv(w: World, e: Event)
    requires Inv(w) && e.RunStepDone? && Enabled(w, e)
    ensures Inv(Next(w, e))
  {
    hide StepOk, RebuildStep, WellFormed, Ready;
    RebuildKeepsSteps(w, e.s, None);
  }

  /** A full rebuild that finishes with no dirt since it began has every step right. */
  lemma {:induction false} RunFinishKeepsInv(w: World, e: Event)
    requires Inv(w) && e.RunFinished? && Enabled(w, e)
    ensures Inv(Next(w, e))
  {
    hide Keys, Units, Agg, Query;
    var run := w.runs[e.id];
    var after := MarkStamped(w.db, run.started, e.at);
    if after.dirtyAt.None? {
      forall s ensures StepOk(after, s) {
        EveryStep(s);
        assert s in run.done;
        assert OkSince(w.db, s, run.started);
        StampDoesNotMatter(w.db, run.started, e.at, s);
      }
    }
  }

  lemma {:induction false} StampDoesNotMatter(db: Db, started: int, now: int, s: Step)
    ensures CountedRows(MarkStamped(db, started, now), s) == CountedRows(db, s)
  {
    forall r ensures r in CountedRows(MarkStamped(db, started, now), s) <==> r in CountedRows(db, s) {
      InCountedRows(MarkStamped(db, started, now), s, r);
      InCountedRows(db, s, r);
    }
  }

  /** Every event keeps the invariant. */
  lemma {:induction false} NextKeepsInv(w: World, e: Event)
    requires Inv(w) && Enabled(w, e)
    ensures Inv(Next(w, e))
  {
    hide StepOk, Inv, MoveTier, WriteFacts, WriteBuilds, CountBatch;
    match e
    case FactsWritten(_, _, _, _) => FactsKeepInv(w, e);
    case TierMoved(_, _) => TierKeepsInv(w, e);
    case BuildsWritten(_, _, _) => BuildsKeepInv(w, e);
    case BatchCounted(_) => BatchKeepsInv(w, e);
    case StepRebuilt(s, patches) => RebuildKeepsSteps(w, s, patches);
    case RunStarted(_, _) => RunStartKeepsInv(w, e);
    case RunStepDone(_, _) => RunStepKeepsInv(w, e);
    case RunFinished(_, _) => RunFinishKeepsInv(w, e);
  }

  lemma {:induction false} RunStartKeepsInv(w: World, e: Event)
    requires Inv(w) && e.RunStarted? && Enabled(w, e)
    ensures Inv(Next(w, e))
  {
    hide StepOk, WellFormed;
  }

  lemma {:induction false} RunKeepsInv(w: World, es: seq<Event>)
    requires Inv(w) && Runs(w, es)
    ensures Inv(After(w, es))
    decreases |es|
  {
    hide Inv;
    if es != [] {
      NextKeepsInv(w, es[0]);
      RunKeepsInv(Next(w, es[0]), es[1..]);
    }
  }

  // ── Drained means rebuilt ─────────────────────────────────────────────────

  lemma {:induction false} DrainedRows(db: Db, s: Step, r: Row)
    requires Drained(db) && AllListed(db)
    ensures r in CountedRows(db, s) <==> r in RowsNow(db, s, db.matches.Keys)
  {
    InCountedRows(db, s, r);
    InRowsNow(db, s, db.matches.Keys, r);
  }

  lemma {:induction false} StampIsIdentity(db: Db, s: Step, ms: set<MatchId>)
    requires Drained(db) && AllListed(db)
    ensures Stamp(db, s, ms) == db
  {
    var after := Stamp(db, s, ms);
    forall m | m in ms && HasFacts(db, m) ensures m in db.counted && Bits(db, m) + {s} == db.counted[m] {
      var fk :| fk in db.facts && fk.mid == m;
      assert s in ALL_STEPS;
    }
    assert after.counted == db.counted;
    assert after.retract == db.retract;
  }

  /** Tables that agree step by step agree. */
  lemma {:induction false} PartsAgree(a: Table, b: Table)
    requires forall s :: Part(a, s) == Part(b, s)
    ensures a == b
  {
    forall k ensures k in a <==> k in b {
      assert k in a <==> k in Part(a, StepOf(k));
      assert k in b <==> k in Part(b, StepOf(k));
    }
    forall k | k in a ensures a[k] == b[k] {
      assert Part(a, StepOf(k)) == Part(b, StepOf(k));
      assert a[k] == Part(a, StepOf(k))[k];
    }
  }

  /** Two ladders that differ at most in tables that are each right have the same tables. */
  lemma {:induction false} TablesDetermined(a: Db, b: Db)
    requires Consistent(a) && Consistent(b) && a == b.(tables := a.tables)
    ensures a == b
  {
    hide Query, Part, CountedRows;
    forall s ensures Part(a.tables, s) == Part(b.tables, s) {
      assert StepOk(a, s) && StepOk(b, s);
      CountedIgnoresTables(a, b, s);
    }
    PartsAgree(a.tables, b.tables);
  }

  lemma {:induction false} CountedIgnoresTables(a: Db, b: Db, s: Step)
    requires a == b.(tables := a.tables)
    ensures CountedRows(a, s) == CountedRows(b, s)
  {
    forall r ensures r in CountedRows(a, s) <==> r in CountedRows(b, s) {
      InCountedRows(a, s, r);
      InCountedRows(b, s, r);
    }
  }

  /**
   With nothing pending and nothing to take back, the delta's tables are the
   rebuild's: rebuilding any step, from every fact or over some patches, changes
   nothing at all.
   */
  lemma {:induction false} DrainedIsRebuilt(db: Db, s: Step, patches: Option<set<Patch>>)
    requires WellFormed(db) && Consistent(db) && Drained(db)
    ensures Part(db.tables, s) == Query(s, RowsNow(db, s, db.matches.Keys))
    ensures RebuildStep(db, s, patches) == db
  {
    hide Keys, Units, Agg, Query, CountedRows, RowsNow, WellFormed, Part;
    var after := RebuildStep(db, s, patches);
    assert StepOk(db, s);
    forall t ensures StepOk(after, t) {
      assert StepOk(db, t);
      if t == s {
        ScopedRebuildKeeps(db, s, patches);
      } else {
        RebuildKeepsOthers(db, s, patches, t);
      }
    }
    RebuildChangesTables(db, s, patches);
    TablesDetermined(after, db);
    forall r ensures r in CountedRows(db, s) <==> r in RowsNow(db, s, db.matches.Keys) {
      DrainedRows(db, s, r);
    }
    assert CountedRows(db, s) == RowsNow(db, s, db.matches.Keys);
  }

  lemma {:induction false} RebuildChangesTables(db: Db, s: Step, patches: Option<set<Patch>>)
    requires Drained(db) && AllListed(db)
    ensures RebuildStep(db, s, patches) == db.(tables := RebuildStep(db, s, patches).tables)
  {
    hide Query, RowsNow, Cleared, Stamp;
    var ms := ScopeMatches(db, patches);
    StampIsIdentity(db.(tables := Cleared(db.tables, s, patches) + Query(s, RowsNow(db, s, ms))), s, ms);
  }

  // ── Every run ─────────────────────────────────────────────────────────────

  /**
   Over every run from a fresh migration, whatever the tables held: whenever
   deltas may run, each step's tables are its statements' result over the matches
   with its bit, each player at the tier they were counted at; no row counts
   nothing; and once nothing is pending or to take back, rebuilding any step over
   any patches changes nothing.
   */
  lemma {:induction false} EveryRunIsConsistent(w: World, es: seq<Event>)
    requires Initial(w) && Runs(w, es)
    ensures var db := After(w, es).db;
            Ready(db) ==>
              && (forall s :: Part(db.tables, s) == Query(s, CountedRows(db, s)))
              && (forall k | k in db.tables :: db.tables[k] != [] && db.tables[k][0] > 0)
              && (Drained(db) ==> forall s, patches :: RebuildStep(db, s, patches) == db)
  {
    hide Keys, Units, Agg, Query, CountedRows, RebuildStep;
    assert Inv(w);
    RunKeepsInv(w, es);
    var db := After(w, es).db;
    if Ready(db) {
      forall s ensures Part(db.tables, s) == Query(s, CountedRows(db, s)) {
        assert StepOk(db, s);
      }
      forall k | k in db.tables ensures db.tables[k] != [] && db.tables[k][0] > 0 {
        assert StepOk(db, StepOf(k));
        NoEmptyRows(db, k);
      }
      if Drained(db) {
        forall s, patches ensures RebuildStep(db, s, patches) == db {
          DrainedIsRebuilt(db, s, patches);
        }
      }
    }
  }
}
