/**
 The job claim: the best ready row of each open lane, then the best of those by
 priority band, busyness of the lane, priority, time and id. It is the best of
 all eligible jobs, and kinds with a limit never run more than it.
 */
module Claim {
  import opened Sums
  import opened Wrappers

  /** Job ids, numbered in their text order. */
  type JobId = nat

  datatype State = Pending | Running | Ended
  datatype Job = Job(
    kind: string, lane: Option<string>, apiMethod: Option<string>, priority: int, runAfter: int,
    state: State, claimedAt: Option<int>, attempts: nat)

  type Jobs = map<JobId, Job>

  /** `ClaimFilter`: the open lanes, the blocked `"lane method"` pairs and the kind limits. */
  datatype Filter = Filter(lanes: seq<string>, blocked: set<string>, limits: map<string, nat>)

  // ── Eligible jobs ─────────────────────────────────────────────────────────

  function RunningOf(jobs: Jobs, kind: string): set<JobId> {
    set id | id in jobs && jobs[id].state.Running? && jobs[id].kind == kind
  }

  function RunningIn(jobs: Jobs, lane: Option<string>): set<JobId> {
    set id | id in jobs && jobs[id].state.Running? && jobs[id].lane == lane
  }

  /** `capped`: a kind with as many running rows as its limit. */
  predicate Capped(jobs: Jobs, f: Filter, kind: string) {
    kind in f.limits && f.limits[kind] <= |RunningOf(jobs, kind)|
  }

  function Pair(lane: string, apiMethod: string): string {
    lane + " " + apiMethod
  }

  predicate Blocked(f: Filter, j: Job) {
    j.lane.Some? && j.apiMethod.Some? && Pair(j.lane.value, j.apiMethod.value) in f.blocked
  }

  /** Ready in an open lane and not blocked there, or in no lane, and of no capped kind. */
  predicate Eligible(jobs: Jobs, f: Filter, now: int, id: JobId) {
    && id in jobs && jobs[id].state.Pending? && jobs[id].runAfter <= now
    && (jobs[id].lane.Some? ==> jobs[id].lane.value in f.lanes && !Blocked(f, jobs[id]))
    && !Capped(jobs, f, jobs[id].kind)
  }

  function InLane(jobs: Jobs, f: Filter, now: int, lane: Option<string>): set<JobId> {
    set id | id in jobs && Eligible(jobs, f, now, id) && jobs[id].lane == lane
  }

  function AllEligible(jobs: Jobs, f: Filter, now: int): set<JobId> {
    set id | id in jobs && Eligible(jobs, f, now, id)
  }

  // ── The orders ────────────────────────────────────────────────────────────

  /** `CLAIM_BAND`. */
  function Band(priority: int): int {
    if priority < 100 then 0 else if priority < 10000 then 100 else priority - priority % 10000
  }

  lemma {:induction false} BandIsMonotone(p: int, q: int)
    requires p <= q
    ensures Band(p) <= Band(q)
  {
    assert p - p % 10000 == 10000 * (p / 10000) && q - q % 10000 == 10000 * (q / 10000);
  }

  predicate Less(a: seq<int>, b: seq<int>)
    requires |a| == |b|
  {
    a != [] && (a[0] < b[0] || (a[0] == b[0] && Less(a[1..], b[1..])))
  }

  lemma {:induction false} LessIsTransitive(a: seq<int>, b: seq<int>, c: seq<int>)
    requires |a| == |b| == |c| && Less(a, b) && Less(b, c)
    ensures Less(a, c)
  {
    if a[0] == b[0] == c[0] {
      LessIsTransitive(a[1..], b[1..], c[1..]);
    }
  }

  lemma {:induction false} LessIsTotal(a: seq<int>, b: seq<int>)
    requires |a| == |b|
    ensures a == b || Less(a, b) || Less(b, a)
    ensures !(Less(a, b) && Less(b, a)) && !Less(a, a)
  {
    if a != [] {
      LessIsTotal(a[1..], b[1..]);
      if a[0] == b[0] && a[1..] == b[1..] {
        assert a == [a[0]] + a[1..] && b == [b[0]] + b[1..];
      }
    }
  }

  /** `CLAIM_ORDER`, inside a lane. */
  function OrderKey(jobs: Jobs, id: JobId): (k: seq<int>)
    ensures |k| == 3
  {
    if id in jobs then [jobs[id].priority, jobs[id].runAfter, id] else [0, 0, id]
  }

  /** The order among heads. */
  function ClaimKey(jobs: Jobs, id: JobId): (k: seq<int>)
    ensures |k| == 5
  {
    if id in jobs then
      [Band(jobs[id].priority), |RunningIn(jobs, jobs[id].lane)|, jobs[id].priority, jobs[id].runAfter, id]
    else [0, 0, 0, 0, id]
  }

  predicate Before(jobs: Jobs, a: JobId, b: JobId) {
    Less(OrderKey(jobs, a), OrderKey(jobs, b))
  }

  predicate Better(jobs: Jobs, a: JobId, b: JobId) {
    Less(ClaimKey(jobs, a), ClaimKey(jobs, b))
  }

  /** Inside one lane the two orders agree: the band follows the priority, and the lane is as busy. */
  lemma {:induction false} SameLaneOrder(jobs: Jobs, a: JobId, b: JobId)
    requires a in jobs && b in jobs && jobs[a].lane == jobs[b].lane && Before(jobs, a, b)
    ensures Better(jobs, a, b)
  {
    var x, y := OrderKey(jobs, a), OrderKey(jobs, b);
    assert x[1..] == [jobs[a].runAfter, a] && y[1..] == [jobs[b].runAfter, b];
    BandIsMonotone(jobs[a].priority, jobs[b].priority);
    var u, v := ClaimKey(jobs, a), ClaimKey(jobs, b);
    if Band(jobs[a].priority) == Band(jobs[b].priority) {
      assert u[1..][1..] == x && v[1..][1..] == y;
    }
  }

  lemma {:induction false} BetterIsTotal(jobs: Jobs, a: JobId, b: JobId)
    ensures a == b || Better(jobs, a, b) || Better(jobs, b, a)
    ensures !(Better(jobs, a, b) && Better(jobs, b, a)) && !Better(jobs, a, a)
  {
    LessIsTotal(ClaimKey(jobs, a), ClaimKey(jobs, b));
    assert ClaimKey(jobs, a)[4] == a && ClaimKey(jobs, b)[4] == b;
  }

  lemma {:induction false} BeforeIsTotal(jobs: Jobs, a: JobId, b: JobId)
    ensures a == b || Before(jobs, a, b) || Before(jobs, b, a)
  {
    LessIsTotal(OrderKey(jobs, a), OrderKey(jobs, b));
    assert OrderKey(jobs, a)[2] == a && OrderKey(jobs, b)[2] == b;
  }

  predicate IsHead(jobs: Jobs, s: set<JobId>, id: JobId) {
    id in s && forall x | x in s && x != id :: Before(jobs, id, x)
  }

  predicate IsBest(jobs: Jobs, s: set<JobId>, id: JobId) {
    id in s && forall x | x in s && x != id :: Better(jobs, id, x)
  }

  /** The best of the heads is the best of all. */
  lemma {:induction false} HeadsAreEnough(jobs: Jobs, f: Filter, now: int, heads: set<JobId>, best: JobId, x: JobId, h: JobId)
    requires IsBest(jobs, heads, best) && Eligible(jobs, f, now, x) && x != best
    requires IsHead(jobs, InLane(jobs, f, now, jobs[x].lane), h) && h in heads
    ensures Better(jobs, best, x)
  {
    hide Better, Before;
    assert x in InLane(jobs, f, now, jobs[x].lane);
    if h != x {
      SameLaneOrder(jobs, h, x);
      if h != best {
        BetterIsTransitive(jobs, best, h, x);
      }
    }
  }

  lemma {:induction false} BetterIsTransitive(jobs: Jobs, a: JobId, b: JobId, c: JobId)
    requires Better(jobs, a, b) && Better(jobs, b, c)
    ensures Better(jobs, a, c)
  {
    LessIsTransitive(ClaimKey(jobs, a), ClaimKey(jobs, b), ClaimKey(jobs, c));
  }

  // ── The claim ─────────────────────────────────────────────────────────────

  /** The first of a set in `CLAIM_ORDER`. */
  method Head(jobs: Jobs, s: set<JobId>) returns (r: Option<JobId>)
    ensures r.None? <==> s == {}
    ensures r.Some? ==> IsHead(jobs, s, r.value)
  {
    hide Before;
    if s == {} {
      return None;
    }
    var id :| id in s;
    var rest := s - {id};
    while rest != {}
      invariant rest < s && id in s - rest
      invariant forall x | x in s - rest && x != id :: Before(jobs, id, x)
      decreases |rest|
    {
      var y :| y in rest;
      BeforeIsTotal(jobs, id, y);
      if Before(jobs, y, id) {
        forall x | x in s - rest && x != id ensures Before(jobs, y, x) {
          BeforeIsTransitive(jobs, y, id, x);
        }
        id := y;
      }
      rest := rest - {y};
    }
    r := Some(id);
  }

  lemma {:induction false} BeforeIsTransitive(jobs: Jobs, a: JobId, b: JobId, c: JobId)
    requires Before(jobs, a, b) && Before(jobs, b, c)
    ensures Before(jobs, a, c)
  {
    LessIsTransitive(OrderKey(jobs, a), OrderKey(jobs, b), OrderKey(jobs, c));
  }

  /** The better of the best so far and one more head. */
  method Choose(jobs: Jobs, ghost heads: set<JobId>, best: Option<JobId>, h: Option<JobId>) returns (r: Option<JobId>)
    requires best.None? <==> heads == {}
    requires best.Some? ==> IsBest(jobs, heads, best.value)
    ensures var now := if h.Some? then heads + {h.value} else heads;
            && (r.None? <==> now == {})
            && (r.Some? ==> IsBest(jobs, now, r.value))
  {
    hide Better;
    if h.None? {
      return best;
    }
    if best.None? {
      return h;
    }
    BetterIsTotal(jobs, best.value, h.value);
    if Better(jobs, h.value, best.value) {
      forall x | x in heads && x != best.value ensures Better(jobs, h.value, x) {
        BetterIsTransitive(jobs, h.value, best.value, x);
      }
      return h;
    }
    r := best;
  }

  /** The claimed row. */
  function Taken(j: Job, now: int): Job {
    j.(state := Running, claimedAt := Some(now), attempts := j.attempts + 1)
  }

  class Queue {
    var jobs: Jobs

    /** `claim_job`: the best of all eligible jobs moves to running; none is claimed just when none is eligible. */
    method ClaimJob(f: Filter, now: int) returns (r: Option<JobId>)
      modifies this
      ensures r.None? <==> AllEligible(old(jobs), f, now) == {}
      ensures r.None? ==> jobs == old(jobs)
      ensures r.Some? ==> IsBest(old(jobs), AllEligible(old(jobs), f, now), r.value)
      ensures r.Some? ==> jobs == old(jobs)[r.value := Taken(old(jobs)[r.value], now)]
    {
      hide IsHead, IsBest, Eligible;
      ghost var heads: set<JobId> := {};
      var best: Option<JobId> := None;
      for i := 0 to |f.lanes|
        invariant jobs == old(jobs)
        invariant best.None? <==> heads == {}
        invariant best.Some? ==> IsBest(jobs, heads, best.value)
        invariant heads <= AllEligible(jobs, f, now)
        invariant forall j | 0 <= j < i :: Covered(jobs, f, now, heads, Some(f.lanes[j]))
      {
        var h := Head(jobs, InLane(jobs, f, now, Some(f.lanes[i])));
        best := Choose(jobs, heads, best, h);
        HeadCovers(jobs, f, now, heads, Some(f.lanes[i]), h);
        heads := if h.Some? then heads + {h.value} else heads;
      }
      var h := Head(jobs, InLane(jobs, f, now, None));
      best := Choose(jobs, heads, best, h);
      HeadCovers(jobs, f, now, heads, None, h);
      heads := if h.Some? then heads + {h.value} else heads;
      BestOfAll(jobs, f, now, heads, best);
      r := best;
      if r.Some? {
        jobs := jobs[r.value := Taken(jobs[r.value], now)];
      }
    }
  }

  /** The head of a lane, if it has one, is among `heads`. */
  ghost predicate Covered(jobs: Jobs, f: Filter, now: int, heads: set<JobId>, lane: Option<string>) {
    InLane(jobs, f, now, lane) == {} || exists h | h in heads :: IsHead(jobs, InLane(jobs, f, now, lane), h)
  }

  lemma {:induction false} HeadCovers(jobs: Jobs, f: Filter, now: int, heads: set<JobId>, lane: Option<string>, h: Option<JobId>)
    requires h.None? <==> InLane(jobs, f, now, lane) == {}
    requires h.Some? ==> IsHead(jobs, InLane(jobs, f, now, lane), h.value)
    ensures var more := if h.Some? then heads + {h.value} else heads;
            && Covered(jobs, f, now, more, lane)
            && (forall l | Covered(jobs, f, now, heads, l) :: Covered(jobs, f, now, more, l))
            && (heads <= AllEligible(jobs, f, now) ==> more <= AllEligible(jobs, f, now))
  {
    hide Eligible, Before;
  }

  lemma {:induction false} BestOfAll(jobs: Jobs, f: Filter, now: int, heads: set<JobId>, best: Option<JobId>)
    requires best.None? <==> heads == {}
    requires best.Some? ==> IsBest(jobs, heads, best.value)
    requires heads <= AllEligible(jobs, f, now)
    requires Covered(jobs, f, now, heads, None)
    requires forall j | 0 <= j < |f.lanes| :: Covered(jobs, f, now, heads, Some(f.lanes[j]))
    ensures best.None? <==> AllEligible(jobs, f, now) == {}
    ensures best.Some? ==> IsBest(jobs, AllEligible(jobs, f, now), best.value) && best.value in jobs
  {
    hide Better, Before;
    forall x | Eligible(jobs, f, now, x)
      ensures best.Some? && (x != best.value ==> Better(jobs, best.value, x))
    {
      assert x in InLane(jobs, f, now, jobs[x].lane);
      assert Covered(jobs, f, now, heads, jobs[x].lane);
      var h :| h in heads && IsHead(jobs, InLane(jobs, f, now, jobs[x].lane), h);
      if x != best.value {
        HeadsAreEnough(jobs, f, now, heads, best.value, x, h);
      }
    }
  }

  // ── Blocked pairs ─────────────────────────────────────────────────────────

  predicate NoSpace(s: string) {
    forall i | 0 <= i < |s| :: s[i] != ' '
  }

  /** A pair written as one string names one lane and one method, as long as lanes have no space in them. */
  lemma {:induction false} PairIsExact(l: string, m: string, l': string, m': string)
    requires NoSpace(l) && NoSpace(l')
    ensures Pair(l, m) == Pair(l', m') <==> l == l' && m == m'
  {
    if Pair(l, m) == Pair(l', m') {
      var p := Pair(l, m);
      assert p[|l|] == ' ' && p[|l'|] == ' ';
      assert |l| == |l'|;
      assert l == p[..|l|] == l' && m == p[|l| + 1..] == m';
    }
  }

  // ── Every run ─────────────────────────────────────────────────────────────

  datatype Event =
    | Written(id: JobId, job: Job)
    | Claimed(f: Filter, now: int, id: JobId)
    | Finished(id: JobId)
    | Requeued(id: JobId, runAfter: int)

  /** A pending job is enqueued or edited, any job ends or goes back, and every claim is made with the limits `l`. */
  predicate Enabled(jobs: Jobs, l: map<string, nat>, e: Event) {
    match e
    case Written(id, job) => job.state.Pending? && (id in jobs ==> jobs[id].state.Pending?)
    case Claimed(f, now, id) => f.limits == l && IsBest(jobs, AllEligible(jobs, f, now), id)
    case Finished(id) => id in jobs
    case Requeued(id, _) => id in jobs
  }

  function Next(jobs: Jobs, l: map<string, nat>, e: Event): Jobs
    requires Enabled(jobs, l, e)
  {
    match e
    case Written(id, job) => jobs[id := job]
    case Claimed(_, now, id) => jobs[id := Taken(jobs[id], now)]
    case Finished(id) => jobs[id := jobs[id].(state := Ended)]
    case Requeued(id, at) => jobs[id := jobs[id].(state := Pending, runAfter := at, claimedAt := None)]
  }

  predicate Runs(jobs: Jobs, l: map<string, nat>, es: seq<Event>)
    decreases |es|
  {
    es == [] || (Enabled(jobs, l, es[0]) && Runs(Next(jobs, l, es[0]), l, es[1..]))
  }

  function After(jobs: Jobs, l: map<string, nat>, es: seq<Event>): Jobs
    requires Runs(jobs, l, es)
    decreases |es|
  {
    if es == [] then jobs else After(Next(jobs, l, es[0]), l, es[1..])
  }

  predicate WithinLimits(jobs: Jobs, l: map<string, nat>) {
    forall kind | kind in l :: |RunningOf(jobs, kind)| <= l[kind]
  }

  lemma {:induction false} NextKeepsLimits(jobs: Jobs, l: map<string, nat>, e: Event)
    requires WithinLimits(jobs, l) && Enabled(jobs, l, e)
    ensures WithinLimits(Next(jobs, l, e), l)
  {
    hide IsBest;
    var after := Next(jobs, l, e);
    forall kind | kind in l ensures |RunningOf(after, kind)| <= l[kind] {
      if e.Claimed? {
        ClaimedIsEligible(jobs, l, e);
        if jobs[e.id].kind == kind {
          assert RunningOf(after, kind) == RunningOf(jobs, kind) + {e.id};
        } else {
          assert RunningOf(after, kind) == RunningOf(jobs, kind);
        }
      } else {
        SubsetSize(RunningOf(after, kind), RunningOf(jobs, kind));
      }
    }
  }

  lemma ClaimedIsEligible(jobs: Jobs, l: map<string, nat>, e: Event)
    requires Enabled(jobs, l, e) && e.Claimed?
    ensures Eligible(jobs, e.f, e.now, e.id)
  {}

  /** Over every run of claims, ends and requeues no capped kind ever has more jobs running than its limit. */
  lemma {:induction false} LimitsHold(jobs: Jobs, l: map<string, nat>, es: seq<Event>)
    requires WithinLimits(jobs, l) && Runs(jobs, l, es)
    ensures WithinLimits(After(jobs, l, es), l)
    decreases |es|
  {
    hide WithinLimits, Enabled, Next;
    if es != [] {
      NextKeepsLimits(jobs, l, es[0]);
      LimitsHold(Next(jobs, l, es[0]), l, es[1..]);
    }
  }
}
