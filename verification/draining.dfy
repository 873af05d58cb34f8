/**
 A ladder's delta run: which matches a batch takes, how batches are sized, and
 that counting in batches is counting all at once, however the matches are
 divided and in whatever order.
 */
module Draining {
  import opened Wrappers
  import opened Tables
  import opened Ladder
  import opened LadderSteps
  import opened LadderRuns
  import opened Staging
  import opened Sums

  const FIRST_BATCH: nat := 50
  const MIN_BATCH: nat := 5

  function Clamp(n: nat, low: nat, high: nat): nat
    requires low <= high
  {
    if n < low then low else if n > high then high else n
  }

  function CapOf(cap: nat): nat {
    if cap < MIN_BATCH then MIN_BATCH else cap
  }

  /** `DeltaSizes::start`. */
  function StartSize(last: Option<nat>, cap: nat): (size: nat)
    ensures MIN_BATCH <= size <= CapOf(cap)
  {
    Clamp(if last.Some? then last.value else FIRST_BATCH, MIN_BATCH, CapOf(cap))
  }

  /** A batch's measured time in milliseconds, at least one. */
  function Milliseconds(seconds: real): (ms: real)
    ensures ms >= 1.0
  {
    if seconds * 1000.0 < 1.0 then 1.0 else seconds * 1000.0
  }

  /** To the nearest whole number, halves up. */
  function Rounded(x: real): nat
    requires x >= 0.0
  {
    (x + 0.5).Floor
  }

  /** This batch's size scaled to the target time. */
  function Scaled(size: nat, targetMs: nat, seconds: real): nat {
    var n := if size < 1 then 1 else size;
    ScaledIsPositive(n * targetMs, Milliseconds(seconds));
    Rounded((n * targetMs) as real / Milliseconds(seconds))
  }

  lemma ScaledIsPositive(n: nat, ms: real)
    requires ms >= 1.0
    ensures n as real / ms >= 0.0
  {}

  /** `next_batch`: scaled to the target time, at most doubled, within the floor and the cap. */
  function NextSize(size: nat, targetMs: nat, seconds: real, cap: nat): (next: nat)
    ensures MIN_BATCH <= next <= CapOf(cap)
    ensures MIN_BATCH <= size ==> next <= 2 * size
  {
    var want := Scaled(size, targetMs, seconds);
    var doubled := 2 * if size < MIN_BATCH then MIN_BATCH else size;
    Clamp(if want < doubled then want else doubled, MIN_BATCH, CapOf(cap))
  }

  /** A batch that took the target time keeps its size. */
  lemma {:induction false} OnTargetStays(size: nat, targetMs: nat, seconds: real, cap: nat)
    requires MIN_BATCH <= size <= CapOf(cap) && targetMs >= 1 && seconds * 1000.0 == targetMs as real
    ensures NextSize(size, targetMs, seconds, cap) == size
  {
    var ms := targetMs as real;
    assert Milliseconds(seconds) == ms;
    assert (size * targetMs) as real == size as real * ms;
    assert size as real * ms / ms == size as real;
    assert (size as real + 0.5).Floor == size;
  }

  /** A slower batch is never followed by a larger one than a faster batch would be. */
  lemma {:induction false} SlowerIsNoLarger(size: nat, targetMs: nat, fast: real, slow: real, cap: nat)
    requires fast <= slow
    ensures NextSize(size, targetMs, slow, cap) <= NextSize(size, targetMs, fast, cap)
  {
    var n := (if size < 1 then 1 else size) * targetMs;
    QuotientFalls(n as real, Milliseconds(fast), Milliseconds(slow));
  }

  lemma {:induction false} QuotientFalls(x: real, a: real, b: real)
    requires x >= 0.0 && 1.0 <= a <= b
    ensures x / b <= x / a
  {
    var p, q := x / b, x / a;
    assert p * b == x && q * a == x;
    assert q * b >= q * a;
  }

  /** Matches with a step to count, with facts of the current version. */
  function Pending(db: Db): set<MatchId> {
    set m | m in db.counted && db.counted[m] != ALL_STEPS && Current(db, m)
  }

  /** Matches with a count to take back, with facts of the current version. */
  function Retracting(db: Db): set<MatchId> {
    set rk | rk in db.retract && Current(db, rk.mid) :: rk.mid
  }

  function Outstanding(db: Db): set<MatchId> {
    Pending(db) + Retracting(db)
  }

  function Ids(ids: seq<MatchId>): set<MatchId> {
    set m | m in ids
  }

  /** The matches of a batch with a step to count, and those with a count taken back. */
  function Added(db: Db, batch: set<MatchId>): set<MatchId> {
    set m | m in batch && exists s | s in ALL_STEPS :: Todo(db, batch, m, s)
  }

  function Retracted(db: Db, batch: set<MatchId>): set<MatchId> {
    set m | m in batch && exists s | s in ALL_STEPS :: Sub(db, batch, m, s)
  }

  // ── Batches compose ───────────────────────────────────────────────────────

  lemma MarksCompose(
    counted: map<MatchId, set<Step>>, retract: map<RetractKey, Option<Tier>>, a: set<MatchId>, b: set<MatchId>)
    ensures AllCounted(AllCounted(counted, a), b) == AllCounted(counted, a + b)
    ensures Forgotten(Forgotten(retract, a), b) == Forgotten(retract, a + b)
  {}

  /** Counting `a` and then `b` is counting them together: nothing is counted twice and nothing is lost. */
  lemma {:induction false} BatchesCompose(db: Db, a: set<MatchId>, b: set<MatchId>)
    requires Ready(db) && WellFormed(db) && Consistent(db)
    ensures CountBatch(CountBatch(db, a), b) == CountBatch(db, a + b)
  {
    hide Consistent, WellFormed, BatchTables, AllCounted, Forgotten;
    var one := CountBatch(db, a);
    BatchKeeps(db, a);
    BatchKeeps(one, b);
    BatchKeeps(db, a + b);
    MarksCompose(db.counted, db.retract, a, b);
    TablesDetermined(CountBatch(one, b), CountBatch(db, a + b));
  }

  /** Batches counted one after another. */
  ghost function CountAll(db: Db, batches: seq<set<MatchId>>): Db {
    if batches == [] then db else CountBatch(CountAll(db, batches[..|batches| - 1]), batches[|batches| - 1])
  }

  function Together(batches: seq<set<MatchId>>): set<MatchId> {
    if batches == [] then {} else Together(batches[..|batches| - 1]) + batches[|batches| - 1]
  }

  /** However matches are divided into batches, in whatever order, of whatever size, the ladder ends the same. */
  lemma {:induction false} AnyDivision(db: Db, batches: seq<set<MatchId>>)
    requires Ready(db) && WellFormed(db) && Consistent(db)
    ensures CountAll(db, batches) == CountBatch(db, Together(batches))
  {
    hide Consistent, WellFormed, CountBatch;
    if batches == [] {
      EmptyBatch(db);
    } else {
      AnyDivision(db, batches[..|batches| - 1]);
      BatchesCompose(db, Together(batches[..|batches| - 1]), batches[|batches| - 1]);
    }
  }

  /** An empty batch changes nothing. */
  lemma {:induction false} EmptyBatch(db: Db)
    requires Ready(db) && WellFormed(db) && Consistent(db)
    ensures CountBatch(db, {}) == db
  {
    hide Consistent, WellFormed, BatchTables;
    BatchKeeps(db, {});
    assert AllCounted(db.counted, {}) == db.counted;
    assert Forgotten(db.retract, {}) == db.retract;
    TablesDetermined(CountBatch(db, {}), db);
  }

  /** A batch leaves outstanding exactly what it did not take. */
  lemma {:induction false} BatchOutstanding(db: Db, batch: set<MatchId>)
    requires Ready(db)
    ensures Pending(CountBatch(db, batch)) == Pending(db) - batch
    ensures Retracting(CountBatch(db, batch)) == Retracting(db) - batch
    ensures Outstanding(CountBatch(db, batch)) <= CountBatch(db, batch).matches.Keys
  {
    hide BatchTables;
    var after := CountBatch(db, batch);
    assert forall m :: Current(after, m) <==> Current(db, m);
    forall m ensures m in Retracting(after) <==> m in Retracting(db) - batch {
      if m in Retracting(db) - batch {
        var rk :| rk in db.retract && rk.mid == m;
        assert rk in after.retract;
      }
    }
  }

  // ── The run ───────────────────────────────────────────────────────────────

  lemma {:induction false} RunStarts(was: Db)
    requires WellFormed(was) && (Ready(was) ==> Consistent(was))
    ensures CountBatch(was, {}) == was
  {
    hide Consistent, WellFormed, BatchTables, AllCounted, Forgotten;
    if Ready(was) {
      EmptyBatch(was);
    }
  }

  lemma {:induction false} BatchKeepsReady(was: Db, taken: set<MatchId>)
    requires WellFormed(was) && (Ready(was) ==> Consistent(was))
    ensures Ready(CountBatch(was, taken)) <==> Ready(was)
    ensures Widths(CountBatch(was, taken).tables)
    ensures !Ready(was) ==> CountBatch(was, taken) == was
  {
    hide Consistent, BatchTables, AllCounted, Forgotten;
    if Ready(was) {
      BatchKeeps(was, taken);
    }
  }

  /** With nothing to take back and nothing waiting after the cursor, everything outstanding was taken. */
  lemma {:induction false} NothingLeft(was: Db, taken: set<MatchId>, cursor: int)
    requires taken <= Outstanding(was)
    requires forall m | m in Pending(was) && m <= cursor :: m in taken
    requires Retracting(CountBatch(was, taken)) == {}
    requires forall m | m in Pending(CountBatch(was, taken)) :: m <= cursor
    ensures CountBatch(was, taken) == CountBatch(was, Outstanding(was))
    ensures Ready(was) ==> Outstanding(CountBatch(was, taken)) == {}
  {
    hide BatchTables, AllCounted, Forgotten, Pending, Retracting;
    if Ready(was) {
      BatchOutstanding(was, taken);
      forall m | m in Outstanding(was) ensures m in taken {
        if m in Retracting(was) {
          assert m !in Retracting(was) - taken;
        } else {
          assert m in taken || m in Pending(CountBatch(was, taken));
        }
      }
      assert taken == Outstanding(was);
    }
  }

  /** What one more batch of a run does. */
  lemma {:induction false} BatchTaken(was: Db, taken: set<MatchId>, ids: seq<MatchId>)
    requires WellFormed(was) && Consistent(was) && Ready(was)
    ensures CountBatch(CountBatch(was, taken), Ids(ids)) == CountBatch(was, taken + Ids(ids))
  {
    hide Consistent, WellFormed, CountBatch;
    BatchesCompose(was, taken, Ids(ids));
  }

  /** A batch, never empty, takes only matches still outstanding, all of which have their row. */
  lemma {:induction false} IdsOutstanding(was: Db, taken: set<MatchId>, ids: seq<MatchId>)
    requires Ready(was) && taken <= Outstanding(was) && ids != []
    requires forall m | m in ids :: m in Outstanding(CountBatch(was, taken))
    ensures forall m | m in ids :: m in CountBatch(was, taken).matches
    ensures taken < taken + Ids(ids) <= Outstanding(was)
    ensures |taken| < |taken + Ids(ids)|
  {
    hide CountBatch, Pending, Retracting;
    BatchOutstanding(was, taken);
    assert ids[0] in Ids(ids);
    Grows(taken, taken + Ids(ids), ids[0]);
  }

  /** Every match waiting up to the new cursor has been taken. */
  lemma {:induction false} CursorMoves(was: Db, taken: set<MatchId>, cursor: int, ids: seq<MatchId>, last: int)
    requires Ready(was)
    requires forall m | m in Pending(was) && m <= cursor :: m in taken
    requires forall m | m in Pending(CountBatch(was, taken)) && cursor < m <= last :: m in ids
    ensures forall m | m in Pending(was) && m <= last :: m in taken + Ids(ids)
  {
    hide CountBatch, Pending, Retracting;
    BatchOutstanding(was, taken);
    forall m | m in Pending(was) && m <= last ensures m in taken + Ids(ids) {
      assert m in taken || m in Pending(CountBatch(was, taken));
    }
  }

  lemma {:induction false} Grows<T>(a: set<T>, b: set<T>, x: T)
    requires a <= b && x in b && x !in a
    ensures |a| < |b|
  {
    SubsetSize(a, b - {x});
  }

  /**
   A ladder whose matches are all at the current version, once its outstanding
   matches are counted, is drained: its tables are a full rebuild's, and rebuilding
   any step of it, over any patches, changes nothing.
   */
  lemma {:induction false} SettledIsRebuilt(db: Db, s: Step, patches: Option<set<Patch>>)
    requires Ready(db) && WellFormed(db) && Consistent(db)
    requires forall m | m in db.counted :: Current(db, m)
    ensures var after := CountBatch(db, Outstanding(db));
            && Drained(after)
            && Part(after.tables, s) == Query(s, RowsNow(after, s, after.matches.Keys))
            && RebuildStep(after, s, patches) == after
  {
    hide Consistent, BatchTables, RebuildStep, Query, Part, WellFormed;
    var after := CountBatch(db, Outstanding(db));
    BatchKeeps(db, Outstanding(db));
    AllSettled(db);
    DrainedIsRebuilt(after, s, patches);
  }

  lemma {:induction false} AllSettled(db: Db)
    requires Ready(db) && WellFormed(db)
    requires forall m | m in db.counted :: Current(db, m)
    ensures Drained(CountBatch(db, Outstanding(db)))
  {
    hide BatchTables;
    var after := CountBatch(db, Outstanding(db));
    forall m | m in after.counted ensures after.counted[m] == ALL_STEPS {
      if m !in Outstanding(db) {
        assert m !in Pending(db);
      }
    }
    forall rk | rk in db.retract ensures rk.mid in Outstanding(db) {
      assert rk.step in Bits(db, rk.mid);
      assert rk.mid in Retracting(db);
    }
    assert after.retract == map[];
  }
}
