/**
 The reader pool: idle connections, and permits that each entitle their holder to
 one. A loan gives its connection back before its permit, so whatever reads are
 cancelled or panic, every permit holder finds a connection.
 */
module Pool {
  import opened Sums

  type Conn = nat
  type ReadId = nat

  /** Where a read is: waiting for a permit, holding one, on loan, or its connection back and its permit not. */
  datatype Read = Waiting | Permitted | Loaned(conn: Conn) | Returned

  datatype World = World(size: nat, idle: seq<Conn>, permits: nat, active: map<ReadId, Read>, failed: set<ReadId>)

  datatype Event =
    | Started(id: ReadId)
    | PermitTaken(id: ReadId)
    | ConnPopped(id: ReadId)
    | ConnPushed(id: ReadId)
    | PermitDropped(id: ReadId)
    | Cancelled(id: ReadId)

  predicate Is(w: World, id: ReadId, r: Read) {
    id in w.active && w.active[id] == r
  }

  predicate OnLoan(w: World, id: ReadId) {
    id in w.active && w.active[id].Loaned?
  }

  /** Dropping a read's future ends it only before it has a loan; a loan goes on to the end of its closure, or is dropped with it. */
  predicate Enabled(w: World, e: Event) {
    match e
    case Started(id) => id !in w.active
    case PermitTaken(id) => Is(w, id, Waiting) && w.permits > 0
    case ConnPopped(id) => Is(w, id, Permitted)
    case ConnPushed(id) => OnLoan(w, id)
    case PermitDropped(id) => Is(w, id, Returned)
    case Cancelled(id) => Is(w, id, Waiting) || Is(w, id, Permitted)
  }

  function Next(w: World, e: Event): World
    requires Enabled(w, e)
  {
    match e
    case Started(id) => w.(active := w.active[id := Waiting])
    case PermitTaken(id) => w.(permits := w.permits - 1, active := w.active[id := Permitted])
    case ConnPopped(id) =>
      if w.idle == [] then w.(permits := w.permits + 1, active := w.active - {id}, failed := w.failed + {id})
      else w.(idle := w.idle[..|w.idle| - 1], active := w.active[id := Loaned(w.idle[|w.idle| - 1])])
    case ConnPushed(id) => w.(idle := w.idle + [w.active[id].conn], active := w.active[id := Returned])
    case PermitDropped(id) => w.(permits := w.permits + 1, active := w.active - {id})
    case Cancelled(id) =>
      w.(permits := if Is(w, id, Permitted) then w.permits + 1 else w.permits, active := w.active - {id})
  }

  // ── Invariant ─────────────────────────────────────────────────────────────

  function Loans(active: map<ReadId, Read>): set<ReadId> {
    set id | id in active && active[id].Loaned?
  }

  /** Everyone with a permit: the loans, those yet to take a connection, and those that have given theirs back. */
  function Holders(active: map<ReadId, Read>): set<ReadId> {
    set id | id in active && !active[id].Waiting?
  }

  /** No connection is idle twice, on loan twice, or both. */
  predicate OneOwner(w: World) {
    && (forall i, j | 0 <= i < j < |w.idle| :: w.idle[i] != w.idle[j])
    && (forall a, b | a in Loans(w.active) && b in Loans(w.active) && a != b :: w.active[a].conn != w.active[b].conn)
    && (forall a | a in Loans(w.active) :: w.active[a].conn !in w.idle)
  }

  predicate Inv(w: World) {
    && |w.idle| + |Loans(w.active)| == w.size
    && w.permits + |Holders(w.active)| == w.size
    && OneOwner(w)
    && w.failed == {}
  }

  /** A permit holder without its connection finds one idle. */
  lemma {:induction false} HolderFindsOne(w: World, id: ReadId)
    requires Inv(w) && Is(w, id, Permitted)
    ensures w.idle != []
  {
    SubsetSize(Loans(w.active), Holders(w.active) - {id});
    assert |Holders(w.active) - {id}| == |Holders(w.active)| - 1;
  }

  function One(b: bool): nat {
    if b then 1 else 0
  }

  lemma {:induction false} Without<T>(s: set<T>, x: T)
    ensures |s - {x}| == |s| - One(x in s) && |s - {x} + {x}| == |s| - One(x in s) + 1
  {
    if x !in s {
      assert s - {x} == s;
    }
  }

  lemma LoansMove(a: map<ReadId, Read>, id: ReadId, r: Read)
    ensures Loans(a[id := r]) == if r.Loaned? then Loans(a) - {id} + {id} else Loans(a) - {id}
    ensures Loans(a - {id}) == Loans(a) - {id}
  {}

  lemma HoldersMove(a: map<ReadId, Read>, id: ReadId, r: Read)
    ensures Holders(a[id := r]) == if r.Waiting? then Holders(a) - {id} else Holders(a) - {id} + {id}
    ensures Holders(a - {id}) == Holders(a) - {id}
  {}

  /** How the counts change when one read moves or leaves. */
  lemma {:induction false} Moves(a: map<ReadId, Read>, id: ReadId, r: Read)
    ensures |Loans(a[id := r])| == |Loans(a)| - One(id in Loans(a)) + One(r.Loaned?)
    ensures |Holders(a[id := r])| == |Holders(a)| - One(id in Holders(a)) + One(!r.Waiting?)
    ensures |Loans(a - {id})| == |Loans(a)| - One(id in Loans(a))
    ensures |Holders(a - {id})| == |Holders(a)| - One(id in Holders(a))
  {
    hide Loans, Holders;
    LoansMove(a, id, r);
    HoldersMove(a, id, r);
    Without(Loans(a), id);
    Without(Holders(a), id);
  }

  lemma {:induction false} NextCounts(w: World, e: Event)
    requires Inv(w) && Enabled(w, e)
    ensures var n := Next(w, e);
            |n.idle| + |Loans(n.active)| == n.size && n.permits + |Holders(n.active)| == n.size && n.failed == {}
  {
    hide OneOwner;
    if e.ConnPopped? {
      HolderFindsOne(w, e.id);
    }
    var n := Next(w, e);
    Moves(w.active, e.id, if e.id in n.active then n.active[e.id] else Waiting);
    if e.id in n.active {
      assert n.active == w.active[e.id := n.active[e.id]];
    }
  }

  lemma {:induction false} NextKeepsInv(w: World, e: Event)
    requires Inv(w) && Enabled(w, e)
    ensures Inv(Next(w, e))
  {
    NextCounts(w, e);
    if e.ConnPopped? {
      HolderFindsOne(w, e.id);
    }
  }

  // ── Every run ─────────────────────────────────────────────────────────────

  predicate Runs(w: World, es: seq<Event>)
    decreases |es|
  {
    es == [] || (Enabled(w, es[0]) && Runs(Next(w, es[0]), es[1..]))
  }

  function After(w: World, es: seq<Event>): World
    requires Runs(w, es)
    decreases |es|
  {
    if es == [] then w else After(Next(w, es[0]), es[1..])
  }

  /** A pool just opened. */
  predicate Opened(w: World) {
    && |w.idle| == w.size && w.permits == w.size && w.active == map[] && w.failed == {}
    && (forall i, j | 0 <= i < j < |w.idle| :: w.idle[i] != w.idle[j])
  }

  lemma {:induction false} RunKeepsInv(w: World, es: seq<Event>)
    requires Inv(w) && Runs(w, es)
    ensures Inv(After(w, es))
    decreases |es|
  {
    if es != [] {
      NextKeepsInv(w, es[0]);
      RunKeepsInv(Next(w, es[0]), es[1..]);
    }
  }

  /**
   Over every interleaving of reads, cancellations and panics no read fails with
   the empty-pool error, no connection is lost or shared, and once no read is
   under way every connection is idle and every permit free.
   */
  lemma {:induction false} PoolNeverEmpty(w: World, es: seq<Event>)
    requires Opened(w) && Runs(w, es)
    ensures var after := After(w, es);
            && after.failed == {}
            && (forall id | Is(after, id, Permitted) :: after.idle != [])
            && |after.idle| + |Loans(after.active)| == after.size && OneOwner(after)
            && (after.active == map[] ==> |after.idle| == after.size == after.permits)
  {
    assert Loans(w.active) == {} && Holders(w.active) == {};
    RunKeepsInv(w, es);
    var after := After(w, es);
    forall id | Is(after, id, Permitted) ensures after.idle != [] {
      HolderFindsOne(after, id);
    }
    if after.active == map[] {
      assert Loans(after.active) == {} && Holders(after.active) == {};
    }
  }

  /** A loan that gave up its permit first: the order the drop does not take. */
  function PermitFirst(w: World, id: ReadId): World
    requires OnLoan(w, id)
  {
    w.(permits := w.permits + 1)
  }

  /** With the permit released first, another read can hold it and find no connection. */
  lemma {:induction false} OrderMatters(c: Conn)
    ensures var w := World(1, [c], 1, map[], {});
            && Opened(w)
            && Runs(w, [Started(1), PermitTaken(1), ConnPopped(1), Started(2)])
            && var loaned := After(w, [Started(1), PermitTaken(1), ConnPopped(1), Started(2)]);
               && OnLoan(loaned, 1) && Enabled(PermitFirst(loaned, 1), PermitTaken(2))
               && var taken := Next(PermitFirst(loaned, 1), PermitTaken(2));
                  Enabled(taken, ConnPopped(2)) && 2 in Next(taken, ConnPopped(2)).failed
  {
    var w := World(1, [c], 1, map[], {});
    var w1 := Next(w, Started(1));
    var w2 := Next(w1, PermitTaken(1));
    var w3 := Next(w2, ConnPopped(1));
    RunOne(w3, Started(2), []);
    RunOne(w2, ConnPopped(1), [Started(2)]);
    RunOne(w1, PermitTaken(1), [ConnPopped(1), Started(2)]);
    RunOne(w, Started(1), [PermitTaken(1), ConnPopped(1), Started(2)]);
  }

  lemma {:induction false} RunOne(w: World, e: Event, es: seq<Event>)
    requires Enabled(w, e) && Runs(Next(w, e), es)
    ensures Runs(w, [e] + es) && After(w, [e] + es) == After(Next(w, e), es)
  {
    assert ([e] + es)[1..] == es;
  }

  // ── The pool in place ─────────────────────────────────────────────────────

  class ReaderPool {
    const size: nat
    var idle: seq<Conn>
    var permits: nat
    var active: map<ReadId, Read>

    function View(): World
      reads this
    {
      World(size, idle, permits, active, {})
    }

    constructor (conns: seq<Conn>)
      requires forall i, j | 0 <= i < j < |conns| :: conns[i] != conns[j]
      ensures Opened(View()) && Inv(View()) && idle == conns
    {
      size, idle, permits, active := |conns|, conns, |conns|, map[];
      new;
      assert Loans(active) == {} && Holders(active) == {};
    }

    /** `Db::read` from its permit to its loan: `PoolEmpty` never comes back. */
    method Borrow(id: ReadId) returns (conn: Conn)
      requires Inv(View()) && Enabled(View(), PermitTaken(id))
      modifies this
      ensures Inv(View()) && Is(View(), id, Loaned(conn))
      ensures Runs(old(View()), [PermitTaken(id), ConnPopped(id)])
      ensures View() == After(old(View()), [PermitTaken(id), ConnPopped(id)])
    {
      ghost var was := View();
      permits, active := permits - 1, active[id := Permitted];
      ghost var holding := View();
      NextKeepsInv(was, PermitTaken(id));
      HolderFindsOne(holding, id);
      NextKeepsInv(holding, ConnPopped(id));
      RunOne(holding, ConnPopped(id), []);
      RunOne(was, PermitTaken(id), [ConnPopped(id)]);
      conn := idle[|idle| - 1];
      idle, active := idle[..|idle| - 1], active[id := Loaned(conn)];
    }

    /** `ReaderLoan::drop`: the connection back, then the permit. */
    method GiveBack(id: ReadId)
      requires Inv(View()) && OnLoan(View(), id)
      modifies this
      ensures Inv(View()) && id !in active
      ensures idle == old(idle) + [old(active)[id].conn] && permits == old(permits) + 1
      ensures Runs(old(View()), [ConnPushed(id), PermitDropped(id)])
      ensures View() == After(old(View()), [ConnPushed(id), PermitDropped(id)])
    {
      ghost var was := View();
      idle, active := idle + [active[id].conn], active[id := Returned];
      ghost var back := View();
      NextKeepsInv(was, ConnPushed(id));
      NextKeepsInv(back, PermitDropped(id));
      RunOne(back, PermitDropped(id), []);
      RunOne(was, ConnPushed(id), [PermitDropped(id)]);
      permits, active := permits + 1, active - {id};
    }
  }
}
