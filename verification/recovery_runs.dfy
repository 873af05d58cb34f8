/**
 Runs of the archive with its recovery in them: snapshots taken, the map lost, any
 day's map loaded and packs reindexed, one transaction at a time, between any steps
 of the service. A reindex and a restore are runs of these steps. Live bytes are exact in every reachable state. Where the store keeps what
 it is sent and a body's bytes do not change, no read ever answers other bytes, and
 a full reindex makes every body readable again.
 */
module RecoveryRuns {
  import opened Wrappers
  import opened Pack
  import opened Archive
  import opened Recovery
  import opened Snapshot
  import opened BucketListing
  import Offload

  datatype World = World(base: Offload.World, days: seq<Lines>)

  datatype Event =
    | Service(e: Offload.Event)
    | SnapshotTaken(s: Lines)
    | MapLost
    | MapLoaded(day: nat)
    | PackReindexed(id: PackId, file: File)

  /** The map is loaded of a day that passes its checks and lists no body twice. */
  predicate Enabled(w: World, c: Codec, e: Event) {
    match e
    case Service(s) => Offload.Enabled(w.base, c, s)
    case SnapshotTaken(_) => true
    case MapLost => true
    case MapLoaded(day) => day < |w.days| && GoodLines(w.days[day]) && DistinctKeys(w.days[day].locs)
    case PackReindexed(_, _) => true
  }

  ghost function Next(w: World, c: Codec, e: Event): World
    requires Enabled(w, c, e)
  {
    match e
    case Service(s) => w.(base := Offload.Next(w.base, c, s))
    case SnapshotTaken(s) => w.(days := w.days + [s])
    case MapLost => WithDb(w, w.base.db.(packs := map[], locs := map[]))
    case MapLoaded(day) =>
      WithDb(w, Replaced(w.base.db, PacksOf(w.days[day].packs), LocsOf(w.days[day].locs)))
    case PackReindexed(id, file) => WithDb(w, ReindexOne(w.base.db, id, file))
  }

  function WithDb(w: World, db: Db): World {
    w.(base := w.base.(db := db))
  }

  ghost function AfterReindex(w: World, c: Codec, ks: seq<ObjKey>, since: Option<PackId>): Db
    requires Enumerates(ks, w.base.bucket)
  {
    ReindexAll(w.base.db, SortListings(NewerThan(ListingFrom(ks, w.base.bucket, c), since)))
  }

  ghost predicate Runs(w: World, c: Codec, es: seq<Event>)
    decreases |es|
  {
    es == [] || (Enabled(w, c, es[0]) && Runs(Next(w, c, es[0]), c, es[1..]))
  }

  ghost function After(w: World, c: Codec, es: seq<Event>): World
    requires Runs(w, c, es)
    decreases |es|
  {
    if es == [] then w else After(Next(w, c, es[0]), c, es[1..])
  }

  const START := World(Offload.START, [])

  // ── Live bytes ────────────────────────────────────────────────────────────

  ghost predicate LiveInv(w: World) {
    LiveExact(w.base.db) && forall id | id in w.base.flights :: Increasing(w.base.flights[id].bodies)
  }

  lemma {:induction false} ServiceKeepsLive(w: World, c: Codec, e: Offload.Event)
    requires LiveInv(w) && Offload.Enabled(w.base, c, e)
    ensures LiveInv(World(Offload.Next(w.base, c, e), w.days))
  {
    hide RecordPack, FreeAll, LiveExact, Packed, Fits;
    var db := w.base.db;
    match e
    case Archived(k, blob) => PutAndFreeKeepLive(db, k, blob);
    case Freed(ks) => FreeAllKeepsLive(db, ks);
    case Recorded(id) =>
      var f := w.base.flights[id];
      Offload.PackEntry(f, c, BodyKey(f.kind, 0));
      RecordKeepsLive(db, id, Offload.PackOf(f, c), TimeOf(id));
    case _ =>
  }

  lemma {:induction false} FreeAllKeepsLive(db: Db, ks: seq<BodyKey>)
    requires LiveExact(db)
    ensures LiveExact(FreeAll(db, ks)) && FreeAll(db, ks).locs == db.locs
  {
    hide LiveExact;
    if ks != [] {
      FreeAllKeepsLive(db, ks[..|ks| - 1]);
      PutAndFreeKeepLive(FreeAll(db, ks[..|ks| - 1]), ks[|ks| - 1], []);
    }
  }

  lemma {:induction false} NextKeepsLive(w: World, c: Codec, e: Event)
    requires LiveInv(w) && Enabled(w, c, e)
    ensures LiveInv(Next(w, c, e))
  {
    hide ReindexOne, Located, PacksOf, LocsOf, GoodLines, DistinctKeys;
    match e
    case Service(s) => ServiceKeepsLive(w, c, s);
    case MapLoaded(day) => LoadKeepsLive(w.base.db, w.days[day]);
    case PackReindexed(id, file) => ReindexKeepsLive(w.base.db, id, file);
    case _ =>
  }

  /**
   In every reachable state, damage and half-done recovery included, live bytes are
   exact and never negative.
   */
  lemma {:induction false} LiveAlwaysExact(w: World, c: Codec, es: seq<Event>)
    requires LiveInv(w) && Runs(w, c, es)
    ensures LiveInv(After(w, c, es))
    ensures forall p | p in After(w, c, es).base.db.packs :: After(w, c, es).base.db.packs[p].live >= 0
    decreases |es|
  {
    hide Enabled, Next;
    if es == [] {
      forall p | p in w.base.db.packs ensures w.base.db.packs[p].live >= 0 {
        LiveNotNegative(w.base.db, p);
      }
    } else {
      NextKeepsLive(w, c, es[0]);
      LiveAlwaysExact(Next(w, c, es[0]), c, es[1..]);
    }
  }

  // ── Honest runs ───────────────────────────────────────────────────────────

  /**
   A body's bytes do not change, the store keeps what it is sent, a snapshot is of
   the tables, and a pack is reindexed as its object reads.
   */
  predicate Honest(w: World, c: Codec, e: Event)
    requires Enabled(w, c, e)
  {
    match e
    case Service(Archived(k, blob)) => k in w.base.latest ==> w.base.latest[k] == blob
    case Service(Uploaded(id, stored)) => stored == Offload.PackOf(w.base.flights[id], c).bytes
    case Service(Damaged(_, _)) => false
    case SnapshotTaken(s) => Exports(s, w.base.db)
    case PackReindexed(id, file) => ReadsFrom(w.base.bucket, c, id, file)
    case _ => true
  }

  predicate ReadsFrom(bucket: Bucket, c: Codec, id: PackId, f: File) {
    ObjKey(f.kind, id) in bucket && ReadObject(bucket, ObjKey(f.kind, id), c) == Some(f)
  }

  ghost predicate HonestRun(w: World, c: Codec, es: seq<Event>)
    requires Runs(w, c, es)
    decreases |es|
  {
    es == [] || (Honest(w, c, es[0]) && HonestRun(Next(w, c, es[0]), c, es[1..]))
  }

  type Latest = map<BodyKey, Bytes>

  /** Bodies in id order, each the latest of its key. */
  predicate Carried(kind: Kind, bs: seq<Body>, latest: Latest, c: Codec) {
    && bs != [] && Increasing(bs) && NonEmpty(bs) && Fits(kind, bs, c)
    && forall i | 0 <= i < |bs| :: BodyKey(kind, bs[i].id) in latest && latest[BodyKey(kind, bs[i].id)] == bs[i].bytes
  }

  predicate HoldsBodies(bytes: Bytes, kind: Kind, bs: seq<Body>, latest: Latest, c: Codec) {
    bytes == Packed(kind, bs, c).bytes && Carried(kind, bs, latest, c)
  }

  /** An object is a pack of latest bodies. */
  ghost predicate Sound(bytes: Bytes, kind: Kind, latest: Latest, c: Codec) {
    exists bs :: HoldsBodies(bytes, kind, bs, latest, c)
  }

  /** A location its own pack lists. */
  predicate LocGood(bucket: Bucket, c: Codec, k: BodyKey, l: Loc) {
    var o := ObjKey(k.kind, l.pack);
    o in bucket && Lists(ListingAt(bucket, o, c), k) == Some(l)
  }

  ghost predicate InBucket(bucket: Bucket, c: Codec, k: BodyKey) {
    exists o | o in bucket :: Lists(ListingAt(bucket, o, c), k).Some?
  }

  predicate RowsGood(db: Db, latest: Latest) {
    && db.rows.Keys == latest.Keys
    && forall k | k in db.rows :: latest[k] != [] && (db.rows[k].body != [] ==> db.rows[k].body == latest[k])
  }

  /** A flight carries latest bodies, and its object is written once. */
  predicate FlightGood(w: Offload.World, c: Codec, id: PackId)
    requires id in w.flights
  {
    var f := w.flights[id];
    && Carried(f.kind, f.bodies, w.latest, c) && (f.verified ==> f.uploaded)
    && (if f.uploaded then
          ObjKey(f.kind, id) in w.bucket && w.bucket[ObjKey(f.kind, id)] == Offload.PackOf(f, c).bytes
        else forall kind :: ObjKey(kind, id) !in w.bucket)
  }

  predicate LinesGood(bucket: Bucket, c: Codec, s: Lines) {
    forall i | 0 <= i < |s.locs| ::
      s.locs[i].offset >= 0 && s.locs[i].len >= 0 && LocGood(bucket, c, s.locs[i].key, LocOf(s.locs[i]))
  }

  ghost predicate Good(w: World, c: Codec) {
    var b := w.base;
    && RowsGood(b.db, b.latest)
    && (forall o | o in b.bucket :: Sound(b.bucket[o], o.kind, b.latest, c))
    && (forall id | id in b.flights :: FlightGood(b, c, id))
    && (forall k | k in b.db.locs :: LocGood(b.bucket, c, k, b.db.locs[k]))
    && (forall i | 0 <= i < |w.days| :: LinesGood(b.bucket, c, w.days[i]))
    && (forall k | k in b.db.rows && b.db.rows[k].body == [] :: InBucket(b.bucket, c, k))
  }

  // ── What good means ───────────────────────────────────────────────────────

  /** A sound object reads as the bodies it holds. */
  lemma {:induction false} SoundReads(bucket: Bucket, o: ObjKey, bs: seq<Body>, latest: Latest, c: Codec)
    requires Faithful(c) && o in bucket && HoldsBodies(bucket[o], o.kind, bs, latest, c)
    ensures ReadObject(bucket, o, c) == Some(FileOf(Packed(o.kind, bs, c)))
  {
    hide Packed, Fits, ReadObject, Faithful;
    StoredPackReads(bucket, o, bs, c);
  }

  /** A location its pack lists fetches the latest bytes. */
  lemma {:induction false} LocFetches(bucket: Bucket, c: Codec, latest: Latest, k: BodyKey, l: Loc)
    requires Faithful(c) && LocGood(bucket, c, k, l)
    requires Sound(bucket[ObjKey(k.kind, l.pack)], k.kind, latest, c)
    ensures k in latest && Fetch(bucket, k, l) == Some(latest[k])
  {
    hide Layout, Find, Concat, Fits, ReadObject, Faithful;
    var o := ObjKey(k.kind, l.pack);
    var bs: seq<Body> :| HoldsBodies(bucket[o], k.kind, bs, latest, c);
    SoundReads(bucket, o, bs, latest, c);
    var f := Offload.Flight(k.kind, bs, true, true);
    Offload.PackEntry(f, c, k);
    var i :| 0 <= i < |bs| && Offload.KeyAt(f, i) == k;
    PackSlice(k.kind, bs, c, i);
  }

  /** In a good state a read answers the latest bytes, or nothing for a freed body the map has lost. */
  lemma {:induction false} GoodReads(w: World, c: Codec, k: BodyKey)
    requires Faithful(c) && Good(w, c)
    ensures var b := w.base;
            ReadBody(b.db, b.bucket, k)
            == if k in b.latest && (b.db.rows[k].body != [] || k in b.db.locs) then Some(b.latest[k]) else None
  {
    hide Faithful, LocGood, Sound, FlightGood, LinesGood, InBucket, Fetch;
    var b := w.base;
    if k in b.db.rows && b.db.rows[k].body == [] && k in b.db.locs {
      LocInBucket(b.bucket, c, k, b.db.locs[k]);
      LocFetches(b.bucket, c, b.latest, k, b.db.locs[k]);
    }
  }

  lemma LocInBucket(bucket: Bucket, c: Codec, k: BodyKey, l: Loc)
    requires LocGood(bucket, c, k, l)
    ensures ObjKey(k.kind, l.pack) in bucket && InBucket(bucket, c, k)
  {}

  // ── Growing ───────────────────────────────────────────────────────────────

  /** Nothing in the bucket changes. */
  predicate Grown(a: Bucket, b: Bucket) {
    forall o | o in a :: o in b && b[o] == a[o]
  }

  lemma {:induction false} GrownKeeps(a: Bucket, b: Bucket, c: Codec)
    requires Grown(a, b)
    ensures forall k, l | LocGood(a, c, k, l) :: LocGood(b, c, k, l)
    ensures forall k | InBucket(a, c, k) :: InBucket(b, c, k)
  {
    hide Read, Find;
    forall o | o in a ensures o in b && ListingAt(b, o, c) == ListingAt(a, o, c) {}
    forall k | InBucket(a, c, k) ensures InBucket(b, c, k) {
      var o :| o in a && Lists(ListingAt(a, o, c), k).Some?;
      assert Lists(ListingAt(b, o, c), k).Some?;
    }
  }

  lemma CarriedStays(kind: Kind, bs: seq<Body>, a: Latest, b: Latest, c: Codec)
    requires Carried(kind, bs, a, c) && forall k | k in a :: k in b && b[k] == a[k]
    ensures Carried(kind, bs, b, c)
  {}

  lemma {:induction false} SoundStays(bytes: Bytes, kind: Kind, a: Latest, b: Latest, c: Codec)
    requires Sound(bytes, kind, a, c) && forall k | k in a :: k in b && b[k] == a[k]
    ensures Sound(bytes, kind, b, c)
  {
    hide Packed;
    var bs :| HoldsBodies(bytes, kind, bs, a, c);
    CarriedStays(kind, bs, a, b, c);
    assert HoldsBodies(bytes, kind, bs, b, c);
  }

  // ── The service's steps ───────────────────────────────────────────────────

  lemma {:induction false} ArchivedGood(w: World, c: Codec, k: BodyKey, blob: Bytes)
    requires Good(w, c) && Enabled(w, c, Service(Offload.Archived(k, blob))) && Honest(w, c, Service(Offload.Archived(k, blob)))
    ensures Good(Next(w, c, Service(Offload.Archived(k, blob))), c)
  {
    hide LocGood, Sound, LinesGood, InBucket, Carried, Packed;
    var b, n := w.base, Next(w, c, Service(Offload.Archived(k, blob))).base;
    assert forall j | j in b.latest :: j in n.latest && n.latest[j] == b.latest[j];
    forall o | o in n.bucket ensures Sound(n.bucket[o], o.kind, n.latest, c) {
      SoundStays(b.bucket[o], o.kind, b.latest, n.latest, c);
    }
    forall id | id in n.flights ensures FlightGood(n, c, id) {
      assert FlightGood(b, c, id);
      CarriedStays(b.flights[id].kind, b.flights[id].bodies, b.latest, n.latest, c);
    }
  }

  lemma {:induction false} BuiltGood(w: World, c: Codec, id: PackId, kind: Kind, bodies: seq<Body>)
    requires Good(w, c) && Enabled(w, c, Service(Offload.PackBuilt(id, kind, bodies)))
    ensures Good(Next(w, c, Service(Offload.PackBuilt(id, kind, bodies))), c)
  {
    hide LocGood, Sound, LinesGood, InBucket, Packed, Fits;
    var b, n := w.base, Next(w, c, Service(Offload.PackBuilt(id, kind, bodies))).base;
    var f := n.flights[id];
    forall i | 0 <= i < |bodies|
      ensures BodyKey(kind, bodies[i].id) in b.latest && b.latest[BodyKey(kind, bodies[i].id)] == bodies[i].bytes
    {
      assert Offload.KeyAt(f, i) in b.db.rows;
    }
    forall other | other in n.flights ensures FlightGood(n, c, other) {
      if other != id {
        assert FlightGood(b, c, other);
      }
    }
  }

  lemma {:induction false} UploadedGood(w: World, c: Codec, id: PackId, stored: Bytes)
    requires Good(w, c) && Enabled(w, c, Service(Offload.Uploaded(id, stored)))
    requires Honest(w, c, Service(Offload.Uploaded(id, stored)))
    ensures Good(Next(w, c, Service(Offload.Uploaded(id, stored))), c)
  {
    hide LocGood, InBucket, Packed, Carried;
    var b, n := w.base, Next(w, c, Service(Offload.Uploaded(id, stored))).base;
    var f := b.flights[id];
    assert FlightGood(b, c, id);
    assert Grown(b.bucket, n.bucket);
    GrownKeeps(b.bucket, n.bucket, c);
    assert HoldsBodies(stored, f.kind, f.bodies, n.latest, c);
    forall o | o in n.bucket ensures Sound(n.bucket[o], o.kind, n.latest, c) {
      if o in b.bucket {
        assert Sound(b.bucket[o], o.kind, b.latest, c);
      }
    }
    forall other | other in n.flights ensures FlightGood(n, c, other) {
      assert FlightGood(b, c, other);
    }
    forall i | 0 <= i < |w.days| ensures LinesGood(n.bucket, c, w.days[i]) {
      assert LinesGood(b.bucket, c, w.days[i]);
    }
  }

  /** A pack recorded is listed by its object, body by body. */
  lemma {:induction false} RecordedGood(w: World, c: Codec, id: PackId)
    requires Faithful(c) && Good(w, c) && Enabled(w, c, Service(Offload.Recorded(id)))
    ensures Good(Next(w, c, Service(Offload.Recorded(id))), c)
  {
    hide LocGood, Sound, LinesGood, InBucket, Faithful, RecordPack, Carried, Packed;
    var b, n := w.base, Next(w, c, Service(Offload.Recorded(id))).base;
    assert FlightGood(b, c, id);
    forall k
      ensures k in n.db.rows <==> k in b.db.rows
      ensures k in b.db.rows ==> n.db.rows[k].body == b.db.rows[k].body
      ensures k in n.db.locs ==> LocGood(n.bucket, c, k, n.db.locs[k])
    {
      RecordedLoc(w, c, id, k);
    }
    assert n.db.rows.Keys == b.db.rows.Keys;
    forall other | other in n.flights ensures FlightGood(n, c, other) {
      assert FlightGood(b, c, other);
    }
  }

  lemma {:induction false} RecordedLoc(w: World, c: Codec, id: PackId, k: BodyKey)
    requires Faithful(c) && Good(w, c) && Enabled(w, c, Service(Offload.Recorded(id)))
    ensures var b, n := w.base, Next(w, c, Service(Offload.Recorded(id))).base;
            && (k in n.db.rows <==> k in b.db.rows)
            && (k in b.db.rows ==> n.db.rows[k].body == b.db.rows[k].body)
            && (k in n.db.locs ==> LocGood(n.bucket, c, k, n.db.locs[k]))
  {
    hide Sound, LinesGood, InBucket, Faithful, Packed, Fits, LocateAll, Find, ReadObject;
    var b := w.base;
    var f := b.flights[id];
    var p := Offload.PackOf(f, c);
    assert FlightGood(b, c, id);
    assert k in b.db.locs ==> LocGood(b.bucket, c, k, b.db.locs[k]);
    if id !in b.db.packs {
      Offload.PackKind(f, c);
      var with := b.db.(packs := b.db.packs[id := PackRow(p.kind, |p.bytes|, |p.entries|, Lens(p.entries), p.sha, TimeOf(id))]);
      LocateAllAt(with, id, f.kind, p.entries, k);
      assert HoldsBodies(b.bucket[ObjKey(f.kind, id)], f.kind, f.bodies, b.latest, c);
      SoundReads(b.bucket, ObjKey(f.kind, id), f.bodies, b.latest, c);
    }
  }

  lemma {:induction false} FreedBodies(db: Db, ks: seq<BodyKey>, k: BodyKey)
    ensures k in FreeAll(db, ks).rows <==> k in db.rows
    ensures k in db.rows ==>
              FreeAll(db, ks).rows[k].body == db.rows[k].body || (FreeAll(db, ks).rows[k].body == [] && k in db.locs)
    ensures FreeAll(db, ks).locs == db.locs
  {
    if ks != [] {
      FreedBodies(db, ks[..|ks| - 1], k);
    }
  }

  lemma {:induction false} FreedGood(w: World, c: Codec, ks: seq<BodyKey>)
    requires Good(w, c) && Enabled(w, c, Service(Offload.Freed(ks)))
    ensures Good(Next(w, c, Service(Offload.Freed(ks))), c)
  {
    hide LocGood, Sound, LinesGood, InBucket, FreeAll, Carried, Packed;
    var b, n := w.base, Next(w, c, Service(Offload.Freed(ks))).base;
    FreedBodies(b.db, ks, BodyKey(Match, 0));
    forall k
      ensures k in n.db.rows <==> k in b.db.rows
      ensures k in b.db.rows ==> n.db.rows[k].body == b.db.rows[k].body || (n.db.rows[k].body == [] && InBucket(b.bucket, c, k))
    {
      FreedBodies(b.db, ks, k);
      if k in b.db.locs {
        LocInBucket(b.bucket, c, k, b.db.locs[k]);
      }
    }
    assert n.db.rows.Keys == b.db.rows.Keys;
    forall id | id in n.flights ensures FlightGood(n, c, id) {
      assert FlightGood(b, c, id);
    }
  }

  lemma {:induction false} OtherGood(w: World, c: Codec, e: Offload.Event)
    requires Good(w, c) && Enabled(w, c, Service(e)) && (e.Checked? || e.Crashed?)
    ensures Good(Next(w, c, Service(e)), c)
  {
    hide LocGood, Sound, LinesGood, InBucket, Carried, Packed;
    var b, n := w.base, Next(w, c, Service(e)).base;
    forall id | id in n.flights ensures FlightGood(n, c, id) {
      assert FlightGood(b, c, id);
    }
  }

  // ── Recovery's steps ──────────────────────────────────────────────────────

  lemma {:induction false} LastLocIs(ls: seq<Listing>, k: BodyKey)
    ensures LastLoc(ls, k).Some? ==> exists i | 0 <= i < |ls| :: LastLoc(ls, k) == Lists(ls[i], k)
    ensures LastLoc(ls, k).None? ==> forall i | 0 <= i < |ls| :: Lists(ls[i], k).None?
  {
    hide Lists;
    if ls != [] && Lists(ls[|ls| - 1], k).None? {
      LastLocIs(ls[..|ls| - 1], k);
      if LastLoc(ls, k).Some? {
        var i :| 0 <= i < |ls| - 1 && LastLoc(ls[..|ls| - 1], k) == Lists(ls[..|ls| - 1][i], k);
        assert LastLoc(ls, k) == Lists(ls[i], k);
      }
      if LastLoc(ls, k).None? {
        assert forall i | 0 <= i < |ls| - 1 :: ls[..|ls| - 1][i] == ls[i];
      }
    }
  }

  lemma {:induction false} SortedMember(ls: seq<Listing>, since: Option<PackId>, l: Listing)
    ensures l in SortListings(NewerThan(ls, since)) <==> l in ls && Newer(l, since)
  {
    hide SortListings, NewerThan;
    NewerMembers(ls, since, l);
    var sorted := SortListings(NewerThan(ls, since));
    assert l in sorted <==> l in multiset(sorted);
    assert l in ls <==> l in multiset(ls);
  }

  /** A map whose every location is good is as good as the one it replaces. */
  lemma {:induction false} MapGood(w: World, c: Codec, db: Db)
    requires Good(w, c)
    requires forall k ::
               && (k in db.rows <==> k in w.base.db.rows)
               && (k in db.rows ==> db.rows[k].body == w.base.db.rows[k].body)
               && (k in db.locs ==> LocGood(w.base.bucket, c, k, db.locs[k]))
    ensures Good(WithDb(w, db), c)
  {
    hide LocGood, Sound, LinesGood, InBucket, Carried, Packed;
    var b, n := w.base, WithDb(w, db).base;
    assert n.db.rows.Keys == b.db.rows.Keys;
    forall id | id in n.flights ensures FlightGood(n, c, id) {
      assert FlightGood(b, c, id);
    }
  }

  /** A pack reindexed as it reads locates each of its bodies where its object lists it. */
  lemma {:induction false} PackReindexedGood(w: World, c: Codec, id: PackId, f: File)
    requires Good(w, c) && ReadsFrom(w.base.bucket, c, id, f)
    ensures Good(Next(w, c, PackReindexed(id, f)), c)
  {
    hide Sound, LinesGood, InBucket, FlightGood, ReindexOne, ReadObject, Find;
    var b, db := w.base, ReindexOne(w.base.db, id, f);
    forall k
      ensures k in db.rows <==> k in b.db.rows
      ensures k in db.rows ==> db.rows[k].body == b.db.rows[k].body
      ensures k in db.locs ==> LocGood(b.bucket, c, k, db.locs[k])
    {
      ReindexOneAt(b.db, id, f, k);
    }
    MapGood(w, c, db);
  }

  lemma {:induction false} MapLoadedGood(w: World, c: Codec, day: nat)
    requires Good(w, c) && Enabled(w, c, MapLoaded(day))
    ensures Good(Next(w, c, MapLoaded(day)), c)
  {
    hide LocGood, Sound, InBucket, FlightGood, PacksOf, LocsOf, GoodLines;
    var b, s := w.base, w.days[day];
    assert LinesGood(b.bucket, c, s);
    LinesFit(s);
    var db := Replaced(b.db, PacksOf(s.packs), LocsOf(s.locs));
    forall k
      ensures k in db.rows <==> k in b.db.rows
      ensures k in db.rows ==> db.rows[k].body == b.db.rows[k].body
      ensures k in db.locs ==> LocGood(b.bucket, c, k, db.locs[k])
    {
      LocsOfAt(s.locs, k);
      if k in db.locs {
        var i :| 0 <= i < |s.locs| && s.locs[i].key == k;
        assert LocGood(b.bucket, c, s.locs[i].key, LocOf(s.locs[i]));
      }
    }
    MapGood(w, c, db);
  }

  lemma {:induction false} SnapshotGood(w: World, c: Codec, s: Lines)
    requires Good(w, c) && Exports(s, w.base.db)
    ensures Good(Next(w, c, SnapshotTaken(s)), c)
  {
    hide LocGood, Sound, InBucket, FlightGood;
    forall i | 0 <= i < |s.locs|
      ensures s.locs[i].offset >= 0 && s.locs[i].len >= 0 && LocGood(w.base.bucket, c, s.locs[i].key, LocOf(s.locs[i]))
    {
      assert IsLine(w.base.db.locs, s.locs[i]);
    }
    assert LinesGood(w.base.bucket, c, s);
  }

  lemma {:induction false} LostGood(w: World, c: Codec)
    requires Good(w, c)
    ensures Good(Next(w, c, MapLost), c)
  {
    hide LocGood, Sound, InBucket, LinesGood, Carried, Packed;
    var b, n := w.base, Next(w, c, MapLost).base;
    forall id | id in n.flights ensures FlightGood(n, c, id) {
      assert FlightGood(b, c, id);
    }
  }

  lemma {:induction false} NextGood(w: World, c: Codec, e: Event)
    requires Faithful(c) && Good(w, c) && Enabled(w, c, e) && Honest(w, c, e)
    ensures Good(Next(w, c, e), c)
  {
    hide Good, Faithful, Next;
    match e
    case Service(Archived(k, blob)) => ArchivedGood(w, c, k, blob);
    case Service(PackBuilt(id, kind, bodies)) => BuiltGood(w, c, id, kind, bodies);
    case Service(Uploaded(id, stored)) => UploadedGood(w, c, id, stored);
    case Service(Checked(_)) => OtherGood(w, c, e.e);
    case Service(Recorded(id)) => RecordedGood(w, c, id);
    case Service(Freed(ks)) => FreedGood(w, c, ks);
    case Service(Crashed) => OtherGood(w, c, e.e);
    case Service(Damaged(_, _)) =>
    case SnapshotTaken(s) => SnapshotGood(w, c, s);
    case MapLost => LostGood(w, c);
    case MapLoaded(day) => MapLoadedGood(w, c, day);
    case PackReindexed(id, file) => PackReindexedGood(w, c, id, file);
  }

  lemma {:induction false} RunGood(w: World, c: Codec, es: seq<Event>)
    requires Faithful(c) && Good(w, c) && Runs(w, c, es) && HonestRun(w, c, es)
    ensures Good(After(w, c, es), c)
    decreases |es|
  {
    hide Good, Faithful, Next, Enabled, Honest;
    if es != [] {
      NextGood(w, c, es[0]);
      RunGood(Next(w, c, es[0]), c, es[1..]);
    }
  }

  lemma StartGood(c: Codec)
    ensures Good(START, c)
  {}

  // ── A reindex and a restore as runs ───────────────────────────────────────

  /** A reindex's transactions, one for each pack that can be read. */
  function Transactions(ls: seq<Listing>): seq<Event> {
    if ls == [] then []
    else
      var last := ls[|ls| - 1];
      Transactions(ls[..|ls| - 1]) + if last.file.Some? then [PackReindexed(last.id, last.file.value)] else []
  }

  lemma {:induction false} RunExtends(w: World, c: Codec, es: seq<Event>, e: Event)
    requires Runs(w, c, es) && Enabled(After(w, c, es), c, e)
    ensures Runs(w, c, es + [e]) && After(w, c, es + [e]) == Next(After(w, c, es), c, e)
    ensures HonestRun(w, c, es) && Honest(After(w, c, es), c, e) ==> HonestRun(w, c, es + [e])
    decreases |es|
  {
    hide Enabled, Next, Honest;
    if es == [] {
      assert es + [e] == [e] && [e][1..] == [];
    } else {
      assert (es + [e])[0] == es[0] && (es + [e])[1..] == es[1..] + [e];
      RunExtends(Next(w, c, es[0]), c, es[1..], e);
    }
  }

  /** A reindex is the run of its transactions, and an honest one where each pack is as its object reads. */
  lemma {:induction false} ReindexIsRun(w: World, c: Codec, ls: seq<Listing>)
    ensures Runs(w, c, Transactions(ls))
    ensures After(w, c, Transactions(ls)) == WithDb(w, ReindexAll(w.base.db, ls))
    ensures (forall l | l in ls && l.file.Some? :: ReadsFrom(w.base.bucket, c, l.id, l.file.value))
            ==> HonestRun(w, c, Transactions(ls))
  {
    hide ReindexOne, ReadsFrom;
    if ls != [] {
      var init, last := ls[..|ls| - 1], ls[|ls| - 1];
      ReindexIsRun(w, c, init);
      assert forall l | l in init :: l in ls;
      if last.file.Some? {
        RunExtends(w, c, Transactions(init), PackReindexed(last.id, last.file.value));
      } else {
        assert Transactions(ls) == Transactions(init);
      }
    }
  }

  /** And a restore is a day's map loaded, then the transactions of the packs after its newest. */
  lemma {:induction false} RestoreIsRun(w: World, c: Codec, day: nat, listing: seq<Listing>)
    requires Enabled(w, c, MapLoaded(day))
    ensures var es := [MapLoaded(day)] + Transactions(SortListings(NewerThan(listing, MaxId(w.days[day].packs))));
            Runs(w, c, es) && After(w, c, es) == WithDb(w, RestoredFrom(w.base.db, w.days[day], listing))
  {
    hide GoodLines, SortListings, NewerThan, MaxId, PacksOf, LocsOf, ReindexAll, Transactions;
    var ls := SortListings(NewerThan(listing, MaxId(w.days[day].packs)));
    ReindexIsRun(Next(w, c, MapLoaded(day)), c, ls);
    assert ([MapLoaded(day)] + Transactions(ls))[1..] == Transactions(ls);
  }

  /** A reindex of the bucket as it lists keeps a good state good. */
  lemma {:induction false} ReindexedGood(w: World, c: Codec, ks: seq<ObjKey>, since: Option<PackId>)
    requires Faithful(c) && Good(w, c) && Enumerates(ks, w.base.bucket)
    ensures Good(WithDb(w, AfterReindex(w, c, ks, since)), c)
  {
    hide Faithful, Good, SortListings, NewerThan, ListingFrom, Enumerates, ReindexAll, Transactions, Runs, HonestRun, Read;
    var listing := ListingFrom(ks, w.base.bucket, c);
    var ls := SortListings(NewerThan(listing, since));
    forall l | l in ls && l.file.Some? ensures ReadsFrom(w.base.bucket, c, l.id, l.file.value) {
      SortedMember(listing, since, l);
      var o := ListedObject(ks, w.base.bucket, c, l);
    }
    ReindexIsRun(w, c, ls);
    RunGood(w, c, Transactions(ls));
  }

  /** A full reindex finds every freed body. */
  lemma {:induction false} FullReindexFinds(w: World, c: Codec, ks: seq<ObjKey>, k: BodyKey)
    requires Good(w, c) && Enumerates(ks, w.base.bucket) && k in w.base.db.rows && w.base.db.rows[k].body == []
    ensures k in AfterReindex(w, c, ks, None).locs
  {
    hide LocGood, Sound, FlightGood, LinesGood, ReindexAll, SortListings, NewerThan, ListingFrom, LastLoc, Enumerates, Lists;
    var b := w.base;
    var o :| o in b.bucket && Lists(ListingAt(b.bucket, o, c), k).Some?;
    var l, listing := ListingAt(b.bucket, o, c), ListingFrom(ks, b.bucket, c);
    var ls := SortListings(NewerThan(listing, None));
    ObjectIsListed(ks, b.bucket, c, o);
    SortedMember(listing, None, l);
    LastLocIs(ls, k);
    var i :| 0 <= i < |ls| && ls[i] == l;
    assert LastLoc(ls, k).Some?;
    ReindexAllAt(b.db, ls, k);
  }

  /**
   After every honest run, with the map lost, snapshots, reindexes and restores
   anywhere in it, done or half-done, a read answers the latest bytes or nothing, and nothing only for
   a body never archived or one freed that the map does not locate; and one full
   reindex from there makes every body archived answer its latest bytes.
   */
  lemma {:induction false} EveryRunRecovers(c: Codec, es: seq<Event>, ks: seq<ObjKey>, k: BodyKey)
    requires Faithful(c) && Runs(START, c, es) && HonestRun(START, c, es)
    requires Enumerates(ks, After(START, c, es).base.bucket)
    ensures var b := After(START, c, es).base;
            && ReadBody(b.db, b.bucket, k)
               == (if k in b.latest && k in b.db.rows && (b.db.rows[k].body != [] || k in b.db.locs)
                   then Some(b.latest[k]) else None)
            && (k in b.latest ==>
                  ReadBody(AfterReindex(After(START, c, es), c, ks, None), b.bucket, k) == Some(b.latest[k]))
  {
    hide Faithful, Runs, HonestRun, Next, Enabled, LocGood, Sound, FlightGood, LinesGood, InBucket, AfterReindex, Enumerates, ReadBody;
    StartGood(c);
    RunGood(START, c, es);
    var w := After(START, c, es);
    GoodReads(w, c, k);
    if k in w.base.latest {
      ReindexReads(w, c, ks, k);
    }
  }

  lemma {:induction false} ReindexReads(w: World, c: Codec, ks: seq<ObjKey>, k: BodyKey)
    requires Faithful(c) && Good(w, c) && Enumerates(ks, w.base.bucket) && k in w.base.latest
    ensures ReadBody(AfterReindex(w, c, ks, None), w.base.bucket, k) == Some(w.base.latest[k])
  {
    hide Faithful, LocGood, Sound, FlightGood, LinesGood, InBucket, AfterReindex, Enumerates, ReadBody;
    var n := WithDb(w, AfterReindex(w, c, ks, None));
    ReindexedGood(w, c, ks, None);
    GoodReads(n, c, k);
    if w.base.db.rows[k].body == [] {
      FullReindexFinds(w, c, ks, k);
    }
    ReindexBodies(w, c, ks, k);
  }

  lemma {:induction false} ReindexBodies(w: World, c: Codec, ks: seq<ObjKey>, k: BodyKey)
    requires Enumerates(ks, w.base.bucket) && k in w.base.db.rows
    ensures k in AfterReindex(w, c, ks, None).rows
    ensures AfterReindex(w, c, ks, None).rows[k].body == w.base.db.rows[k].body
  {
    hide ReindexAll, SortListings, NewerThan, ListingFrom, LastLoc, Enumerates;
    ReindexAllAt(w.base.db, SortListings(NewerThan(ListingFrom(ks, w.base.bucket, c), None)), k);
  }
}
