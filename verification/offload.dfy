/**
 Every run of the archive and its offload: bodies archived, packs read, built,
 uploaded, checked and recorded by any number of offloads at once, local copies
 freed, crashes at any point, and objects damaged or lost. A read answers the
 bytes last archived or nothing, and answers them while the bucket is undamaged.
 */
module Offload {
  import opened Wrappers
  import opened Pack
  import opened Archive

  /** A `write_pack` under way, with the bodies it read. */
  datatype Flight = Flight(kind: Kind, bodies: seq<Body>, uploaded: bool, verified: bool)

  /** `latest` is what was last archived under each key. */
  datatype World = World(
    db: Db, bucket: Bucket, flights: map<PackId, Flight>, latest: map<BodyKey, Bytes>)

  datatype Event =
    | Archived(key: BodyKey, blob: Bytes)
    | PackBuilt(id: PackId, kind: Kind, bodies: seq<Body>)
    | Uploaded(id: PackId, stored: Bytes)
    | Checked(id: PackId)
    | Recorded(id: PackId)
    | Freed(keys: seq<BodyKey>)
    | Crashed
    | Damaged(obj: ObjKey, bytes: Option<Bytes>)

  function KeyAt(f: Flight, i: nat): BodyKey
    requires i < |f.bodies|
  {
    BodyKey(f.kind, f.bodies[i].id)
  }

  /** The bodies of a flight are local bodies, in id order. */
  predicate ReadLocally(db: Db, f: Flight) {
    && f.bodies != [] && Increasing(f.bodies) && NonEmpty(f.bodies)
    && forall i | 0 <= i < |f.bodies| :: KeyAt(f, i) in db.rows && db.rows[KeyAt(f, i)].body == f.bodies[i].bytes
  }

  predicate Carries(f: Flight, k: BodyKey, blob: Bytes) {
    forall i | 0 <= i < |f.bodies| :: KeyAt(f, i) == k ==> f.bodies[i].bytes == blob
  }

  /**
   A zstd frame is never empty. A body under way to a pack is archived again only
   with the bytes it had: completed matches do not change. A new pack's id is new,
   and the pack is recorded at the time its id was made.
   */
  predicate Enabled(w: World, c: Codec, e: Event) {
    match e
    case Archived(k, blob) => blob != [] && forall id | id in w.flights :: Carries(w.flights[id], k, blob)
    case PackBuilt(id, kind, bodies) =>
      && ReadLocally(w.db, Flight(kind, bodies, false, false)) && Fits(kind, bodies, c)
      && id !in w.flights && id !in w.db.packs && forall k :: ObjKey(k, id) !in w.bucket
    case Uploaded(id, _) => id in w.flights && !w.flights[id].uploaded
    case Checked(id) => id in w.flights && w.flights[id].uploaded
    case Recorded(id) => id in w.flights && w.flights[id].verified
    case Freed(_) => true
    case Crashed => true
    case Damaged(_, _) => true
  }

  function PackOf(f: Flight, c: Codec): Pack {
    Packed(f.kind, f.bodies, c)
  }

  /** `verify`: the stored object has the pack's digest. */
  predicate StoredWhole(w: World, c: Codec, id: PackId)
    requires id in w.flights
  {
    var f := w.flights[id];
    var at := ObjKey(f.kind, id);
    at in w.bucket && Sha256(w.bucket[at]) == PackOf(f, c).sha
  }

  function Next(w: World, c: Codec, e: Event): World
    requires Enabled(w, c, e)
  {
    match e
    case Archived(k, blob) => w.(db := PutBody(w.db, k, blob), latest := w.latest[k := blob])
    case PackBuilt(id, kind, bodies) => w.(flights := w.flights[id := Flight(kind, bodies, false, false)])
    case Uploaded(id, stored) =>
      w.(bucket := w.bucket[ObjKey(w.flights[id].kind, id) := stored],
         flights := w.flights[id := w.flights[id].(uploaded := true)])
    case Checked(id) =>
      if StoredWhole(w, c, id) then w.(flights := w.flights[id := w.flights[id].(verified := true)])
      else w.(flights := w.flights - {id})
    case Recorded(id) =>
      w.(db := RecordPack(w.db, id, PackOf(w.flights[id], c), TimeOf(id)), flights := w.flights - {id})
    case Freed(keys) => w.(db := FreeAll(w.db, keys))
    case Crashed => w.(flights := map[])
    case Damaged(obj, bytes) =>
      w.(bucket := if bytes.Some? then w.bucket[obj := bytes.value] else w.bucket - {obj})
  }

  predicate Runs(w: World, c: Codec, es: seq<Event>)
    decreases |es|
  {
    es == [] || (Enabled(w, c, es[0]) && Runs(Next(w, c, es[0]), c, es[1..]))
  }

  function After(w: World, c: Codec, es: seq<Event>): World
    requires Runs(w, c, es)
    decreases |es|
  {
    if es == [] then w else After(Next(w, c, es[0]), c, es[1..])
  }

  // ── Invariants ────────────────────────────────────────────────────────────

  /** A local body is the latest, a freed one has a location, and a packed row's location has the latest's digest. */
  predicate RowOk(db: Db, latest: map<BodyKey, Bytes>, k: BodyKey)
    requires k in db.rows
  {
    var row := db.rows[k];
    && k in latest && latest[k] != []
    && (row.body != [] ==> row.body == latest[k])
    && (row.body == [] ==> row.packed && k in db.locs)
    && (row.offloaded <==> row.body == [])
    && (row.packed && k in db.locs ==> db.locs[k].sha == Sha256(latest[k]) && db.locs[k].len == |latest[k]|)
  }

  predicate RowsOk(db: Db, latest: map<BodyKey, Bytes>) {
    db.rows.Keys == latest.Keys && forall k | k in db.rows :: RowOk(db, latest, k)
  }

  predicate FlightOk(w: World, id: PackId)
    requires id in w.flights
  {
    var f := w.flights[id];
    && f.bodies != [] && Increasing(f.bodies) && NonEmpty(f.bodies) && id !in w.db.packs && (f.verified ==> f.uploaded)
    && forall i | 0 <= i < |f.bodies| :: KeyAt(f, i) in w.latest && w.latest[KeyAt(f, i)] == f.bodies[i].bytes
  }

  ghost predicate Inv(w: World) {
    && RowsOk(w.db, w.latest)
    && (forall id | id in w.flights :: FlightOk(w, id))
    && LiveExact(w.db)
  }

  /** Each located body is in its pack, and a checked pack is stored whole. */
  predicate Intact(w: World, c: Codec) {
    && (forall k | k in w.db.locs :: Fetch(w.bucket, k, w.db.locs[k]).Some?)
    && (forall id | id in w.flights && w.flights[id].verified :: StoredWhole(w, c, id))
  }

  // ── Recording a pack ──────────────────────────────────────────────────────

  lemma {:induction false} PackEntry(f: Flight, c: Codec, k: BodyKey)
    requires Increasing(f.bodies)
    ensures Distinct(PackOf(f, c).entries)
    ensures Listed(f.kind, PackOf(f, c).entries, k).Some? <==> exists i | 0 <= i < |f.bodies| :: KeyAt(f, i) == k
    ensures forall i | 0 <= i < |f.bodies| && KeyAt(f, i) == k ::
              Listed(f.kind, PackOf(f, c).entries, k) == Some(Layout(f.kind, f.bodies)[i])
              && Layout(f.kind, f.bodies)[i].sha == Sha256(f.bodies[i].bytes)
              && Layout(f.kind, f.bodies)[i].len == |f.bodies[i].bytes|
  {
    hide Layout, Find;
    var es := Layout(f.kind, f.bodies);
    forall i | 0 <= i < |f.bodies|
      ensures es[i].id == f.bodies[i].id && es[i].sha == Sha256(f.bodies[i].bytes) && es[i].len == |f.bodies[i].bytes|
    {
      LayoutAt(f.kind, f.bodies, i);
    }
    assert Distinct(es);
    FoundIn(es, k.id);
    forall i | 0 <= i < |f.bodies| && KeyAt(f, i) == k ensures Find(es, k.id) == Some(es[i]) {
      FindAt(es, i);
    }
    if k.kind == f.kind && Find(es, k.id).Some? {
      var i :| 0 <= i < |es| && es[i] == Find(es, k.id).value;
      assert KeyAt(f, i) == k;
    }
  }

  /** The flight still carries what was last archived. */
  predicate Fresh(f: Flight, latest: map<BodyKey, Bytes>) {
    forall i | 0 <= i < |f.bodies| :: KeyAt(f, i) in latest ==> latest[KeyAt(f, i)] == f.bodies[i].bytes
  }

  lemma {:induction false} RecordRow(db: Db, latest: map<BodyKey, Bytes>, id: PackId, f: Flight, c: Codec, now: int, k: BodyKey)
    requires RowsOk(db, latest) && id !in db.packs && Increasing(f.bodies) && k in db.rows
    ensures var after := RecordPack(db, id, PackOf(f, c), now);
            && k in after.rows
            && (RowOk(after, latest, k) <==> Carries(f, k, latest[k]))
  {
    hide Layout, Find, LocateAll;
    var p := PackOf(f, c);
    var row := PackRow(p.kind, |p.bytes|, |p.entries|, Lens(p.entries), p.sha, now);
    var with := db.(packs := db.packs[id := row]);
    assert RowOk(db, latest, k);
    LocateAllAt(with, id, f.kind, p.entries, k);
    PackEntry(f, c, k);
    if i :| 0 <= i < |f.bodies| && KeyAt(f, i) == k {
      OneBody(f, k, i);
    }
  }

  lemma OneBody(f: Flight, k: BodyKey, i: nat)
    requires Increasing(f.bodies) && i < |f.bodies| && KeyAt(f, i) == k
    ensures forall j | 0 <= j < |f.bodies| && KeyAt(f, j) == k :: j == i
  {}

  lemma {:induction false} RecordKeys(db: Db, id: PackId, p: Pack, now: int)
    requires id !in db.packs
    ensures RecordPack(db, id, p, now).rows.Keys == db.rows.Keys
  {
    var row := PackRow(p.kind, |p.bytes|, |p.entries|, Lens(p.entries), p.sha, now);
    var with := db.(packs := db.packs[id := row]);
    forall k ensures k in RecordPack(db, id, p, now).rows <==> k in db.rows {
      LocateAllAt(with, id, p.kind, p.entries, k);
    }
  }

  /**
   Recording a pack keeps the read guarantee exactly when no body in it was
   archived with other bytes since it was read.
   */
  lemma {:induction false} RecordSafe(db: Db, latest: map<BodyKey, Bytes>, id: PackId, f: Flight, c: Codec, now: int)
    requires RowsOk(db, latest) && id !in db.packs && Increasing(f.bodies)
    ensures RowsOk(RecordPack(db, id, PackOf(f, c), now), latest) <==> Fresh(f, latest)
  {
    hide RecordPack, PackOf, RowOk;
    var after := RecordPack(db, id, PackOf(f, c), now);
    RecordKeys(db, id, PackOf(f, c), now);
    forall k | k in db.rows ensures RowOk(after, latest, k) <==> Carries(f, k, latest[k]) {
      RecordRow(db, latest, id, f, c, now, k);
    }
    if Fresh(f, latest) {
      forall k | k in after.rows ensures RowOk(after, latest, k) {
        assert Carries(f, k, latest[k]);
      }
    }
    if RowsOk(after, latest) {
      forall i | 0 <= i < |f.bodies| && KeyAt(f, i) in latest ensures latest[KeyAt(f, i)] == f.bodies[i].bytes {
        assert RowOk(after, latest, KeyAt(f, i));
        assert Carries(f, KeyAt(f, i), latest[KeyAt(f, i)]);
      }
    }
  }

  /**
   Without that, the guarantee is lost: a body archived again with other bytes
   while its pack is under way is marked packed by the record, its local copy can
   be freed, and reads then answer the bytes it had before.
   */
  lemma {:induction false} StaleRecord(c: Codec, x: Id, id: PackId, a: Bytes, b: Bytes)
    requires a != [] && b != [] && a != b
    ensures var k := BodyKey(Match, x);
            var f := Flight(Match, [Body(x, a)], true, true);
            var read := PutBody(Db(map[], map[], map[]), k, a);
            var again := PutBody(read, k, b);
            var freed := FreeBody(RecordPack(again, id, PackOf(f, c), 0), k);
            && ReadLocally(read, f) && !Carries(f, k, b)
            && ReadBody(freed, map[ObjKey(Match, id) := PackOf(f, c).bytes], k) == Some(a)
  {
    hide LocateAll, Layout, Find;
    var k := BodyKey(Match, x);
    var f := Flight(Match, [Body(x, a)], true, true);
    var p := PackOf(f, c);
    var again := PutBody(PutBody(Db(map[], map[], map[]), k, a), k, b);
    var with := again.(packs := again.packs[id := PackRow(p.kind, |p.bytes|, |p.entries|, Lens(p.entries), p.sha, 0)]);
    assert KeyAt(f, 0) == k;
    PackEntry(f, c, k);
    LocateAllAt(with, id, Match, p.entries, k);
    PackSlice(Match, f.bodies, c, 0);
  }

  // ── Every step keeps the invariant ────────────────────────────────────────

  lemma {:induction false} ArchivedKeeps(w: World, c: Codec, k: BodyKey, blob: Bytes)
    requires Inv(w) && Enabled(w, c, Archived(k, blob))
    ensures Inv(Next(w, c, Archived(k, blob)))
  {
    var after := Next(w, c, Archived(k, blob));
    PutAndFreeKeepLive(w.db, k, blob);
    forall j | j in after.db.rows ensures RowOk(after.db, after.latest, j) {
      if j in w.db.rows {
        assert RowOk(w.db, w.latest, j);
      }
    }
    forall id | id in after.flights ensures FlightOk(after, id) {
      assert FlightOk(w, id) && Carries(w.flights[id], k, blob);
    }
  }

  lemma {:induction false} FreeKeepsRows(db: Db, latest: map<BodyKey, Bytes>, k: BodyKey)
    requires RowsOk(db, latest)
    ensures RowsOk(FreeBody(db, k), latest)
  {
    forall j | j in FreeBody(db, k).rows ensures RowOk(FreeBody(db, k), latest, j) {
      assert RowOk(db, latest, j);
    }
  }

  lemma {:induction false} FreedKeeps(db: Db, latest: map<BodyKey, Bytes>, ks: seq<BodyKey>)
    requires RowsOk(db, latest) && LiveExact(db)
    ensures RowsOk(FreeAll(db, ks), latest) && LiveExact(FreeAll(db, ks))
    ensures FreeAll(db, ks).packs == db.packs && FreeAll(db, ks).locs == db.locs
  {
    hide RowsOk, LiveExact;
    if ks != [] {
      FreedKeeps(db, latest, ks[..|ks| - 1]);
      FreeKeepsRows(FreeAll(db, ks[..|ks| - 1]), latest, ks[|ks| - 1]);
      PutAndFreeKeepLive(FreeAll(db, ks[..|ks| - 1]), ks[|ks| - 1], []);
    }
  }

  lemma {:induction false} RecordPacks(db: Db, id: PackId, p: Pack, now: int)
    requires LiveExact(db) && id !in db.packs
    ensures RecordPack(db, id, p, now).packs.Keys == db.packs.Keys + {id}
  {
    var row := PackRow(p.kind, |p.bytes|, |p.entries|, Lens(p.entries), p.sha, now);
    LocateAllSlack(db.(packs := db.packs[id := row]), id, p.kind, p.entries, id);
  }

  lemma {:induction false} RecordedKeeps(w: World, c: Codec, id: PackId)
    requires Inv(w) && Enabled(w, c, Recorded(id))
    ensures Inv(Next(w, c, Recorded(id)))
  {
    hide RecordPack, PackOf, RowsOk, LiveExact;
    var after, f := Next(w, c, Recorded(id)), w.flights[id];
    assert FlightOk(w, id);
    RecordSafe(w.db, w.latest, id, f, c, TimeOf(id));
    PackEntry(f, c, BodyKey(f.kind, 0));
    RecordKeepsLive(w.db, id, PackOf(f, c), TimeOf(id));
    RecordPacks(w.db, id, PackOf(f, c), TimeOf(id));
    forall other | other in after.flights ensures FlightOk(after, other) {
      assert FlightOk(w, other);
    }
  }

  lemma {:induction false} NextKeepsInv(w: World, c: Codec, e: Event)
    requires Inv(w) && Enabled(w, c, e)
    ensures Inv(Next(w, c, e))
  {
    hide LiveExact, Packed, RecordPack, FreeAll;
    var after := Next(w, c, e);
    match e
    case Archived(k, blob) => ArchivedKeeps(w, c, k, blob);
    case Recorded(id) => RecordedKeeps(w, c, id);
    case Freed(ks) =>
      FreedKeeps(w.db, w.latest, ks);
      forall id | id in after.flights ensures FlightOk(after, id) {
        assert FlightOk(w, id);
      }
    case PackBuilt(id, kind, bodies) => BuiltKeeps(w, c, id, kind, bodies);
    case Crashed =>
    case Uploaded(_, _) => FlightsKeep(w, c, e);
    case Checked(_) => FlightsKeep(w, c, e);
    case Damaged(_, _) => FlightsKeep(w, c, e);
  }

  lemma {:induction false} FlightsKeep(w: World, c: Codec, e: Event)
    requires Inv(w) && Enabled(w, c, e) && (e.Uploaded? || e.Checked? || e.Damaged?)
    ensures forall id | id in Next(w, c, e).flights :: FlightOk(Next(w, c, e), id)
  {
    hide LiveExact, Packed;
    forall id | id in Next(w, c, e).flights ensures FlightOk(Next(w, c, e), id) {
      assert FlightOk(w, id);
    }
  }

  lemma {:induction false} BuiltKeeps(w: World, c: Codec, id: PackId, kind: Kind, bodies: seq<Body>)
    requires Inv(w) && Enabled(w, c, PackBuilt(id, kind, bodies))
    ensures Inv(Next(w, c, PackBuilt(id, kind, bodies)))
  {
    hide LiveExact;
    var after := Next(w, c, PackBuilt(id, kind, bodies));
    var f := after.flights[id];
    forall other | other in after.flights ensures FlightOk(after, other) {
      if other == id {
        forall i | 0 <= i < |bodies| ensures KeyAt(f, i) in w.latest && w.latest[KeyAt(f, i)] == bodies[i].bytes {
          assert RowOk(w.db, w.latest, KeyAt(f, i));
        }
      } else {
        assert FlightOk(w, other);
      }
    }
  }

  // ── And, but for damage, keeps every body readable ────────────────────────

  /** A recorded body can be fetched from a pack stored whole. */
  lemma {:induction false} RecordedFetches(w: World, c: Codec, id: PackId, k: BodyKey)
    requires Inv(w) && Intact(w, c) && Enabled(w, c, Recorded(id))
    ensures var after := Next(w, c, Recorded(id));
            k in after.db.locs ==> Fetch(after.bucket, k, after.db.locs[k]).Some?
  {
    hide Layout, Find, LocateAll, LiveExact, RowsOk, Packed;
    var f := w.flights[id];
    var p := PackOf(f, c);
    assert FlightOk(w, id) && StoredWhole(w, c, id);
    var with := w.db.(packs := w.db.packs[id := PackRow(p.kind, |p.bytes|, |p.entries|, Lens(p.entries), p.sha, TimeOf(id))]);
    PackKind(f, c);
    LocateAllAt(with, id, f.kind, p.entries, k);
    PackEntry(f, c, k);
    if i :| 0 <= i < |f.bodies| && KeyAt(f, i) == k {
      PackSlice(f.kind, f.bodies, c, i);
    }
  }

  lemma PackKind(f: Flight, c: Codec)
    ensures PackOf(f, c).kind == f.kind && PackOf(f, c).entries == Layout(f.kind, f.bodies)
    ensures PackOf(f, c).sha == Sha256(PackOf(f, c).bytes)
  {}

  lemma {:induction false} NextKeepsIntact(w: World, c: Codec, e: Event)
    requires Inv(w) && Intact(w, c) && Enabled(w, c, e) && !e.Damaged?
    ensures Intact(Next(w, c, e), c)
  {
    hide RowsOk, RecordPack, FreeAll, Packed;
    var after := Next(w, c, e);
    match e
    case Recorded(id) =>
      forall k | k in after.db.locs ensures Fetch(after.bucket, k, after.db.locs[k]).Some? {
        RecordedFetches(w, c, id, k);
      }
      forall other | other in after.flights && after.flights[other].verified ensures StoredWhole(after, c, other) {
        assert StoredWhole(w, c, other);
      }
    case Uploaded(id, stored) =>
      assert FlightOk(w, id);
      forall k | k in after.db.locs ensures Fetch(after.bucket, k, after.db.locs[k]).Some? {
        assert w.db.locs[k].pack in w.db.packs;
        assert Fetch(w.bucket, k, w.db.locs[k]).Some?;
      }
      forall other | other in after.flights && after.flights[other].verified ensures StoredWhole(after, c, other) {
        assert StoredWhole(w, c, other);
      }
    case Freed(ks) => FreedKeeps(w.db, w.latest, ks);
    case Archived(_, _) =>
    case PackBuilt(_, _, _) => StoredStays(w, c, e);
    case Checked(_) => StoredStays(w, c, e);
    case Crashed =>
  }

  lemma {:induction false} StoredStays(w: World, c: Codec, e: Event)
    requires Intact(w, c) && Enabled(w, c, e) && (e.PackBuilt? || e.Checked?)
    ensures forall id | id in Next(w, c, e).flights && Next(w, c, e).flights[id].verified :: StoredWhole(Next(w, c, e), c, id)
  {
    hide Packed;
    var after := Next(w, c, e);
    forall id | id in after.flights && after.flights[id].verified ensures StoredWhole(after, c, id) {
      assert id in w.flights;
      if w.flights[id].verified {
        assert StoredWhole(w, c, id);
      }
    }
  }

  // ── Every run ─────────────────────────────────────────────────────────────

  const START := World(Db(map[], map[], map[]), map[], map[], map[])

  predicate Undamaged(es: seq<Event>) {
    forall i | 0 <= i < |es| :: !es[i].Damaged?
  }

  lemma {:induction false} RunKeeps(w: World, c: Codec, es: seq<Event>)
    requires Inv(w) && Runs(w, c, es)
    ensures Inv(After(w, c, es))
    ensures Undamaged(es) && Intact(w, c) ==> Intact(After(w, c, es), c)
    decreases |es|
  {
    hide Inv, Intact, Enabled, Next;
    if es != [] {
      NextKeepsInv(w, c, es[0]);
      if Undamaged(es) && Intact(w, c) {
        NextKeepsIntact(w, c, es[0]);
      }
      RunKeeps(Next(w, c, es[0]), c, es[1..]);
    }
  }

  /** A read answers the latest bytes or nothing; nothing only for a body never archived, unless its pack is damaged. */
  lemma {:induction false} ReadOk(w: World, c: Codec, k: BodyKey)
    requires Inv(w)
    ensures ReadBody(w.db, w.bucket, k) == None || (k in w.latest && ReadBody(w.db, w.bucket, k) == Some(w.latest[k]))
    ensures k !in w.latest ==> ReadBody(w.db, w.bucket, k) == None
    ensures Intact(w, c) && k in w.latest ==> ReadBody(w.db, w.bucket, k) == Some(w.latest[k])
  {
    hide LiveExact;
    if k in w.db.rows {
      assert RowOk(w.db, w.latest, k);
    }
  }

  /**
   After every run from an empty archive, whatever the store did, a read never
   answers other bytes than the last archived; and if no stored object was
   damaged it answers them for every body archived. Live bytes are exact.
   */
  lemma {:induction false} EveryRunReads(c: Codec, es: seq<Event>, k: BodyKey)
    requires Runs(START, c, es)
    ensures var w := After(START, c, es);
            && (ReadBody(w.db, w.bucket, k) == None
                || (k in w.latest && ReadBody(w.db, w.bucket, k) == Some(w.latest[k])))
            && (Undamaged(es) && k in w.latest ==> ReadBody(w.db, w.bucket, k) == Some(w.latest[k]))
            && LiveExact(w.db)
  {
    RunKeeps(START, c, es);
    ReadOk(After(START, c, es), c, k);
  }
}
