/**
 Single-flight: callers of one key while a work is under way share it. The first
 starts the work on its own task, which frees the slot as it ends, by value or
 panic, whether or not anyone still waits. The steps of callers and tasks are
 taken in any order.
 */
module SingleFlight {
  import opened Wrappers

  type Key = string
  type CallId = nat
  type FlightId = nat

  /** What a work came to: its value, or `WorkFailed` for a panic or an abort. */
  datatype Outcome = Done(value: string) | WorkFailed

  /** A work runs, has ended with its `Release` still to drop, or has dropped it. */
  datatype Phase = Working | Ended(outcome: Outcome) | Released(outcome: Outcome)

  datatype Flight = Flight(key: Key, leader: CallId, phase: Phase)
  datatype Call = Call(flight: FlightId, didWork: bool, result: Option<Outcome>, gone: bool)

  datatype World = World(inflight: map<Key, FlightId>, flights: map<FlightId, Flight>, calls: map<CallId, Call>)

  datatype Event =
    | Called(call: CallId, key: Key, flight: FlightId)
    | WorkEnded(flight: FlightId, outcome: Outcome)
    | SlotFreed(flight: FlightId)
    | Delivered(call: CallId)
    | Cancelled(call: CallId)

  /** A shared future is ready once its task has ended, after the task's `Release`. */
  predicate Enabled(w: World, e: Event) {
    match e
    case Called(c, _, f) => c !in w.calls && f !in w.flights
    case WorkEnded(f, _) => f in w.flights && w.flights[f].phase.Working?
    case SlotFreed(f) => f in w.flights && w.flights[f].phase.Ended?
    case Delivered(c) => Waiting(w, c) && w.calls[c].flight in w.flights && w.flights[w.calls[c].flight].phase.Released?
    case Cancelled(c) => Waiting(w, c)
  }

  predicate Waiting(w: World, c: CallId) {
    c in w.calls && w.calls[c].result.None? && !w.calls[c].gone
  }

  function Next(w: World, e: Event): World
    requires Enabled(w, e)
  {
    match e
    case Called(c, k, f) =>
      if k in w.inflight then w.(calls := w.calls[c := Call(w.inflight[k], false, None, false)])
      else World(w.inflight[k := f], w.flights[f := Flight(k, c, Working)], w.calls[c := Call(f, true, None, false)])
    case WorkEnded(f, outcome) => w.(flights := w.flights[f := w.flights[f].(phase := Ended(outcome))])
    case SlotFreed(f) =>
      w.(inflight := w.inflight - {w.flights[f].key},
         flights := w.flights[f := w.flights[f].(phase := Released(w.flights[f].phase.outcome))])
    case Delivered(c) =>
      w.(calls := w.calls[c := w.calls[c].(result := Some(w.flights[w.calls[c].flight].phase.outcome))])
    case Cancelled(c) => w.(calls := w.calls[c := w.calls[c].(gone := true)])
  }

  // ── Invariant ─────────────────────────────────────────────────────────────

  /** The map holds exactly the flights whose slot is not freed, each under its key. */
  predicate SlotsOk(w: World) {
    && (forall k | k in w.inflight ::
          w.inflight[k] in w.flights && w.flights[w.inflight[k]].key == k && !w.flights[w.inflight[k]].phase.Released?)
    && (forall f | f in w.flights && !w.flights[f].phase.Released? ::
          w.flights[f].key in w.inflight && w.inflight[w.flights[f].key] == f)
  }

  /** One call per flight did its work; an answered call has its flight's outcome. */
  predicate CallsOk(w: World) {
    && (forall c | c in w.calls ::
          w.calls[c].flight in w.flights && (w.calls[c].didWork <==> w.flights[w.calls[c].flight].leader == c))
    && (forall f | f in w.flights :: w.flights[f].leader in w.calls && w.calls[w.flights[f].leader].flight == f)
    && (forall c | c in w.calls && w.calls[c].result.Some? ::
          w.flights[w.calls[c].flight].phase == Released(w.calls[c].result.value))
  }

  predicate Inv(w: World) {
    SlotsOk(w) && CallsOk(w)
  }

  lemma {:induction false} NextKeepsInv(w: World, e: Event)
    requires Inv(w) && Enabled(w, e)
    ensures Inv(Next(w, e))
  {
    NextKeepsSlots(w, e);
    NextKeepsCalls(w, e);
  }

  lemma {:induction false} NextKeepsSlots(w: World, e: Event)
    requires Inv(w) && Enabled(w, e)
    ensures SlotsOk(Next(w, e))
  {
    hide CallsOk, Waiting;
    var n := Next(w, e);
    forall k | k in n.inflight
      ensures n.inflight[k] in n.flights && n.flights[n.inflight[k]].key == k && !n.flights[n.inflight[k]].phase.Released?
    {
      if k in w.inflight {
        assert w.flights[w.inflight[k]].key == k;
      }
    }
    forall f | f in n.flights && !n.flights[f].phase.Released?
      ensures n.flights[f].key in n.inflight && n.inflight[n.flights[f].key] == f
    {
      if f in w.flights {
        assert w.inflight[w.flights[f].key] == f;
      }
    }
  }

  lemma {:induction false} NextKeepsCalls(w: World, e: Event)
    requires Inv(w) && Enabled(w, e)
    ensures CallsOk(Next(w, e))
  {
    var n := Next(w, e);
    forall c | c in n.calls ensures n.calls[c].flight in n.flights
                            ensures n.calls[c].didWork <==> n.flights[n.calls[c].flight].leader == c
                            ensures n.calls[c].result.Some? ==>
                                      n.flights[n.calls[c].flight].phase == Released(n.calls[c].result.value)
    {
      if c in w.calls {
        assert w.calls[c].flight in w.flights;
      }
    }
    forall f | f in n.flights ensures n.flights[f].leader in n.calls && n.calls[n.flights[f].leader].flight == f {
      if f in w.flights {
        assert w.flights[f].leader in w.calls;
      }
    }
  }

  /** A task's `Release` removes its own slot and no other's, though it removes by key. */
  lemma FreesOwnSlot(w: World, f: FlightId)
    requires Inv(w) && Enabled(w, SlotFreed(f))
    ensures w.flights[f].key in w.inflight && w.inflight[w.flights[f].key] == f
    ensures forall k :: k in Next(w, SlotFreed(f)).inflight <==> k in w.inflight && w.inflight[k] != f
  {}

  /** A call joins the flight whose slot is held when it is made, or starts its own. */
  lemma JoinsWhatIsHeld(w: World, c: CallId, k: Key, f: FlightId)
    requires Inv(w) && Enabled(w, Called(c, k, f))
    ensures var after := Next(w, Called(c, k, f));
            && (after.calls[c].didWork <==> k !in w.inflight)
            && (forall g | g in w.flights && w.flights[g].key == k ::
                  after.calls[c].flight == g <==> !w.flights[g].phase.Released?)
  {}

  // ── Every run ─────────────────────────────────────────────────────────────

  predicate Runs(w: World, es: seq<Event>)
    decreases |es|
  {
    es == [] || (Enabled(w, es[0]) && Runs(Next(w, es[0]), es[1..]))
  }

  function After(w: World, es: seq<Event>): World
    requires Runs(w, es)
    decreases |es|
  {
    if es == [] then w else After(Next(w, es[0]), es[1..])
  }

  const START := World(map[], map[], map[])

  lemma {:induction false} RunKeepsInv(w: World, es: seq<Event>)
    requires Inv(w) && Runs(w, es)
    ensures Inv(After(w, es))
    decreases |es|
  {
    if es != [] {
      NextKeepsInv(w, es[0]);
      RunKeepsInv(Next(w, es[0]), es[1..]);
    }
  }

  /**
   After every interleaving: at most one work runs for a key; every flight has
   one call that did its work; and calls answered by one flight have one answer.
   */
  lemma {:induction false} EveryRunShares(es: seq<Event>)
    requires Runs(START, es)
    ensures var w := After(START, es);
            && (forall f, g | f in w.flights && g in w.flights && w.flights[f].phase.Working? && w.flights[g].phase.Working?
                              && w.flights[f].key == w.flights[g].key :: f == g)
            && (forall f | f in w.flights ::
                  exists c | c in w.calls :: w.calls[c].flight == f && w.calls[c].didWork)
            && (forall c, d | c in w.calls && d in w.calls && w.calls[c].flight == w.calls[d].flight ::
                  && (w.calls[c].didWork && w.calls[d].didWork ==> c == d)
                  && (w.calls[c].result.Some? && w.calls[d].result.Some? ==> w.calls[c].result == w.calls[d].result))
  {
    RunKeepsInv(START, es);
    var w := After(START, es);
    forall f | f in w.flights ensures exists c | c in w.calls :: w.calls[c].flight == f && w.calls[c].didWork {
      assert w.calls[w.flights[f].leader].didWork;
    }
  }

  /** A flight whose slot is freed stays so, with its outcome, and gains no caller. */
  lemma FreedStaysFreed(w: World, e: Event, f: FlightId)
    requires Inv(w) && Enabled(w, e) && f in w.flights && w.flights[f].phase.Released?
    ensures f in Next(w, e).flights && Next(w, e).flights[f] == w.flights[f]
    ensures forall c | c in Next(w, e).calls && Next(w, e).calls[c].flight == f :: c in w.calls && w.calls[c].flight == f
  {}

  /** So a call made after a slot is freed never gets that flight's result, in whatever follows. */
  lemma {:induction false} NeverJoinedLate(w: World, es: seq<Event>, f: FlightId, c: CallId)
    requires Inv(w) && Runs(w, es) && f in w.flights && w.flights[f].phase.Released? && c !in w.calls
    ensures c in After(w, es).calls ==> After(w, es).calls[c].flight != f
    decreases |es|
  {
    if es != [] {
      NextKeepsInv(w, es[0]);
      FreedStaysFreed(w, es[0], f);
      var n := Next(w, es[0]);
      if c in n.calls {
        CallerStays(n, es[1..], c);
      } else {
        NeverJoinedLate(n, es[1..], f, c);
      }
    }
  }

  lemma {:induction false} CallerStays(w: World, es: seq<Event>, c: CallId)
    requires Runs(w, es) && c in w.calls
    ensures c in After(w, es).calls && After(w, es).calls[c].flight == w.calls[c].flight
    decreases |es|
  {
    if es != [] {
      CallerStays(Next(w, es[0]), es[1..], c);
    }
  }

  /** But a call made between the work's end and the slot's freeing still joins it, and gets its result. */
  lemma {:induction false} JoinedAfterTheEnd(k: Key, x: Outcome)
    ensures var es := [Called(1, k, 7), WorkEnded(7, x), Called(2, k, 8), SlotFreed(7), Delivered(2)];
            && Runs(START, es) && 2 in After(START, es).calls && After(START, es).calls[2].result == Some(x)
  {
    var w1 := Next(START, Called(1, k, 7));
    var w2 := Next(w1, WorkEnded(7, x));
    var w3 := Next(w2, Called(2, k, 8));
    var w4 := Next(w3, SlotFreed(7));
    var w5 := Next(w4, Delivered(2));
    RunOne(w4, Delivered(2), []);
    RunOne(w3, SlotFreed(7), [Delivered(2)]);
    RunOne(w2, Called(2, k, 8), [SlotFreed(7), Delivered(2)]);
    RunOne(w1, WorkEnded(7, x), [Called(2, k, 8), SlotFreed(7), Delivered(2)]);
    RunOne(START, Called(1, k, 7), [WorkEnded(7, x), Called(2, k, 8), SlotFreed(7), Delivered(2)]);
  }

  lemma {:induction false} RunOne(w: World, e: Event, es: seq<Event>)
    requires Enabled(w, e) && Runs(Next(w, e), es)
    ensures Runs(w, [e] + es) && After(w, [e] + es) == After(Next(w, e), es)
  {
    assert ([e] + es)[1..] == es;
  }

  /** Whoever has gone, a flight's task can run to its end, and then the key is free for a new call. */
  lemma {:induction false} TaskNeedsNoCaller(w: World, f: FlightId, x: Outcome)
    requires Inv(w) && f in w.flights && w.flights[f].phase.Working?
    ensures var es := [WorkEnded(f, x), SlotFreed(f)];
            Runs(w, es) && w.flights[f].key !in After(w, es).inflight
  {
    var ended := Next(w, WorkEnded(f, x));
    RunOne(ended, SlotFreed(f), []);
    RunOne(w, WorkEnded(f, x), [SlotFreed(f)]);
  }

  // ── The map in place ──────────────────────────────────────────────────────

  /** The shared map with the flights and calls it serves. */
  class Flights {
    var inflight: map<Key, FlightId>
    var flights: map<FlightId, Flight>
    var calls: map<CallId, Call>

    function View(): World
      reads this
    {
      World(inflight, flights, calls)
    }

    constructor ()
      ensures View() == START && Inv(View())
    {
      inflight, flights, calls := map[], map[], map[];
    }

    /** `run` up to its wait: the slot under `k`, inserted by the first caller. */
    method Run(c: CallId, k: Key, f: FlightId) returns (didWork: bool)
      requires Inv(View()) && Enabled(View(), Called(c, k, f))
      modifies this
      ensures View() == Next(old(View()), Called(c, k, f)) && Inv(View())
      ensures didWork <==> k !in old(inflight)
    {
      NextKeepsInv(View(), Called(c, k, f));
      didWork := k !in inflight;
      if didWork {
        inflight := inflight[k := f];
        flights := flights[f := Flight(k, c, Working)];
      }
      calls := calls[c := Call(inflight[k], didWork, None, false)];
    }

    /** The task's last steps: the work's outcome, then `Release`. */
    method Finish(f: FlightId, outcome: Outcome)
      requires Inv(View()) && Enabled(View(), WorkEnded(f, outcome))
      modifies this
      ensures Inv(View()) && Runs(old(View()), [WorkEnded(f, outcome), SlotFreed(f)])
      ensures View() == After(old(View()), [WorkEnded(f, outcome), SlotFreed(f)])
      ensures inflight == old(inflight) - {old(flights)[f].key}
    {
      ghost var was := View();
      flights := flights[f := flights[f].(phase := Ended(outcome))];
      ghost var ended := View();
      NextKeepsInv(was, WorkEnded(f, outcome));
      NextKeepsInv(ended, SlotFreed(f));
      RunOne(ended, SlotFreed(f), []);
      RunOne(was, WorkEnded(f, outcome), [SlotFreed(f)]);
      inflight := inflight - {flights[f].key};
      flights := flights[f := flights[f].(phase := Released(outcome))];
    }
  }
}
