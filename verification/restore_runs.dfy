/**
 The tables of an offload run are its packs recorded in order, its bucket reads
 back as those packs, and a restore from a snapshot taken anywhere in the run is
 judged by them.
 */
module RestoreRuns {
  import opened Wrappers
  import opened Pack
  import opened Archive
  import opened Offload
  import opened Recovery
  import opened Snapshot
  import opened BucketListing

  // ── A run's records ───────────────────────────────────────────────────────

  /** The packs a run records, in order. */
  function RecordsOf(w: World, c: Codec, es: seq<Event>): seq<PackRecord>
    requires Runs(w, c, es)
    decreases |es|
  {
    if es == [] then []
    else RecordsOfOne(w, c, es[0]) + RecordsOf(Next(w, c, es[0]), c, es[1..])
  }

  function RecordsOfOne(w: World, c: Codec, e: Event): seq<PackRecord>
    requires Enabled(w, c, e)
  {
    if e.Recorded? then [PackRecord(e.id, PackOf(w.flights[e.id], c))] else []
  }

  lemma {:induction false} RecordIgnoresRows(a: Db, b: Db, id: PackId, p: Pack, now: int)
    requires a.packs == b.packs && a.locs == b.locs
    ensures RecordPack(a, id, p, now).packs == RecordPack(b, id, p, now).packs
    ensures RecordPack(a, id, p, now).locs == RecordPack(b, id, p, now).locs
  {
    hide LocateAll;
    var row := PackRow(p.kind, |p.bytes|, |p.entries|, Lens(p.entries), p.sha, now);
    LocateIgnoresRows(a.(packs := a.packs[id := row]), b.(packs := b.packs[id := row]), id, p.kind, p.entries);
  }

  lemma {:induction false} RecordAllSplit(db: Db, x: PackRecord, rs: seq<PackRecord>)
    ensures RecordAll(db, [x] + rs) == RecordAll(RecordPack(db, x.id, x.pack, TimeOf(x.id)), rs)
    decreases |rs|
  {
    hide RecordPack;
    if rs == [] {
      assert [x] + rs == [x] && [x][..0] == [];
    } else {
      assert ([x] + rs)[..|rs|] == [x] + rs[..|rs| - 1];
      RecordAllSplit(db, x, rs[..|rs| - 1]);
    }
  }

  /** A step changes the tables only by the pack it records. */
  lemma {:induction false} StepTables(w: World, c: Codec, e: Event)
    requires Inv(w) && Enabled(w, c, e)
    ensures var db := RecordAll(w.db, RecordsOfOne(w, c, e));
            Next(w, c, e).db.packs == db.packs && Next(w, c, e).db.locs == db.locs
  {
    hide RecordPack, PackOf, FreeAll, LiveExact, RowsOk;
    match e
    case Freed(ks) => FreedKeeps(w.db, w.latest, ks);
    case Recorded(id) =>
      var r := PackRecord(id, PackOf(w.flights[id], c));
      RecordAllSplit(w.db, r, []);
      assert [r] + [] == [r];
    case _ =>
  }

  /** So a run's tables are its records', one after another. */
  lemma {:induction false} TablesAreRecords(w: World, c: Codec, es: seq<Event>, base: Db)
    requires Inv(w) && Runs(w, c, es) && base.packs == w.db.packs && base.locs == w.db.locs
    ensures After(w, c, es).db.packs == RecordAll(base, RecordsOf(w, c, es)).packs
    ensures After(w, c, es).db.locs == RecordAll(base, RecordsOf(w, c, es)).locs
    decreases |es|
  {
    hide Inv, Enabled, Next, RecordPack, RecordAll, PackOf;
    if es == [] {
      NoRecords(base);
    } else {
      var one, n := RecordsOfOne(w, c, es[0]), Next(w, c, es[0]);
      StepTables(w, c, es[0]);
      NextKeepsInv(w, c, es[0]);
      NoRecords(base);
      NoRecords(w.db);
      if one == [] {
        TablesAreRecords(n, c, es[1..], base);
        assert one + RecordsOf(n, c, es[1..]) == RecordsOf(n, c, es[1..]);
      } else {
        var r := one[0];
        RecordAllSplit(w.db, r, []);
        assert [r] + [] == one;
        NoRecords(RecordPack(w.db, r.id, r.pack, TimeOf(r.id)));
        RecordIgnoresRows(base, w.db, r.id, r.pack, TimeOf(r.id));
        TablesAreRecords(n, c, es[1..], RecordPack(base, r.id, r.pack, TimeOf(r.id)));
        RecordAllSplit(base, r, RecordsOf(n, c, es[1..]));
        assert one == [r];
      }
    }
  }

  lemma NoRecords(db: Db)
    ensures RecordAll(db, []) == db
  {}

  lemma {:induction false} PacksGrow(w: World, c: Codec, e: Event)
    requires Inv(w) && Enabled(w, c, e)
    ensures Next(w, c, e).db.packs.Keys == w.db.packs.Keys + (if e.Recorded? then {e.id} else {})
  {
    hide RecordPack, PackOf, FreeAll, LiveExact, RowsOk;
    match e
    case Freed(ks) => FreedKeeps(w.db, w.latest, ks);
    case Recorded(id) =>
      assert FlightOk(w, id);
      RecordPacks(w.db, id, PackOf(w.flights[id], c), TimeOf(id));
    case _ =>
  }

  /** No pack is recorded twice. */
  lemma {:induction false} RecordsAreNew(w: World, c: Codec, es: seq<Event>)
    requires Inv(w) && Runs(w, c, es)
    ensures forall i | 0 <= i < |RecordsOf(w, c, es)| :: RecordsOf(w, c, es)[i].id !in w.db.packs
    ensures forall i, j | 0 <= i < j < |RecordsOf(w, c, es)| :: RecordsOf(w, c, es)[i].id != RecordsOf(w, c, es)[j].id
    decreases |es|
  {
    hide Inv, PackOf;
    if es != [] {
      var one, n := RecordsOfOne(w, c, es[0]), Next(w, c, es[0]);
      var rest := RecordsOf(n, c, es[1..]);
      NextKeepsInv(w, c, es[0]);
      PacksGrow(w, c, es[0]);
      RecordsAreNew(n, c, es[1..]);
      if es[0].Recorded? {
        RecordedIsNew(w, c, es[0].id);
        assert RecordsOf(w, c, es) == one + rest && one[0].id == es[0].id;
      } else {
        assert RecordsOf(w, c, es) == rest;
      }
    }
  }

  lemma {:induction false} RecordedIsNew(w: World, c: Codec, id: PackId)
    requires Inv(w) && Enabled(w, c, Recorded(id))
    ensures id !in w.db.packs
  {
    assert FlightOk(w, id);
  }

  /** A record is a pack of bodies in id order, none empty, whose index fits. */
  predicate IsPack(r: PackRecord, kind: Kind, bs: seq<Body>, c: Codec) {
    bs != [] && Increasing(bs) && NonEmpty(bs) && Fits(kind, bs, c) && r.pack == Packed(kind, bs, c)
  }

  ghost predicate Whole(r: PackRecord, c: Codec) {
    exists kind, bs :: IsPack(r, kind, bs, c)
  }

  predicate FlightsFit(w: World, c: Codec) {
    forall id | id in w.flights :: Fits(w.flights[id].kind, w.flights[id].bodies, c)
  }

  predicate Stored(bucket: Bucket, r: PackRecord) {
    ObjKey(r.pack.kind, r.id) in bucket && bucket[ObjKey(r.pack.kind, r.id)] == r.pack.bytes
  }

  /** The objects of one pack id are of one kind, that of its flight if it is under way. */
  predicate Kinds(w: World) {
    && OneKind(w.bucket)
    && (forall id, kind | id in w.flights && ObjKey(kind, id) in w.bucket ::
          kind == w.flights[id].kind && w.flights[id].uploaded)
  }

  lemma {:induction false} KindsStay(w: World, c: Codec, e: Event)
    requires Kinds(w) && Enabled(w, c, e) && !e.Damaged?
    ensures Kinds(Next(w, c, e))
  {
    hide RecordPack, PackOf, FreeAll, PutBody, Fits, ReadLocally;
  }

  lemma {:induction false} FlightsStayFit(w: World, c: Codec, e: Event)
    requires FlightsFit(w, c) && Enabled(w, c, e)
    ensures FlightsFit(Next(w, c, e), c)
  {
    hide RecordPack, PackOf, FreeAll, PutBody, Fits, ReadLocally;
  }

  /** Every pack a run records is a pack of bodies, whatever becomes of its object. */
  lemma {:induction false} RecordsAreWhole(w: World, c: Codec, es: seq<Event>)
    requires Inv(w) && FlightsFit(w, c) && Runs(w, c, es)
    ensures forall i | 0 <= i < |RecordsOf(w, c, es)| :: Whole(RecordsOf(w, c, es)[i], c)
    decreases |es|
  {
    hide Inv, FlightsFit, PackOf, Whole;
    if es != [] {
      var one, n := RecordsOfOne(w, c, es[0]), Next(w, c, es[0]);
      var rest := RecordsOf(n, c, es[1..]);
      NextKeepsInv(w, c, es[0]);
      FlightsStayFit(w, c, es[0]);
      RecordsAreWhole(n, c, es[1..]);
      if es[0].Recorded? {
        RecordIsWhole(w, c, es[0].id);
        assert RecordsOf(w, c, es) == one + rest;
      } else {
        assert RecordsOf(w, c, es) == rest;
      }
    }
  }

  lemma {:induction false} RecordIsWhole(w: World, c: Codec, id: PackId)
    requires Inv(w) && FlightsFit(w, c) && Enabled(w, c, Recorded(id))
    ensures Whole(PackRecord(id, PackOf(w.flights[id], c)), c)
  {
    hide Packed, LiveExact, RowsOk, Fits;
    assert FlightOk(w, id);
    assert IsPack(PackRecord(id, PackOf(w.flights[id], c)), w.flights[id].kind, w.flights[id].bodies, c);
  }

  /** An object of a recorded pack is not written again. */
  lemma {:induction false} ObjectStays(w: World, c: Codec, es: seq<Event>, o: ObjKey)
    requires Inv(w) && Runs(w, c, es) && Undamaged(es) && o.pack in w.db.packs && o in w.bucket
    ensures o in After(w, c, es).bucket && After(w, c, es).bucket[o] == w.bucket[o]
    decreases |es|
  {
    hide Inv, PackOf, RecordPack, FreeAll;
    if es != [] {
      var n := Next(w, c, es[0]);
      NextKeepsInv(w, c, es[0]);
      PacksGrow(w, c, es[0]);
      if es[0].Uploaded? {
        UploadIsNew(w, c, es[0]);
      }
      assert !es[0].Damaged?;
      ObjectStays(n, c, es[1..], o);
    }
  }

  lemma {:induction false} UploadIsNew(w: World, c: Codec, e: Event)
    requires Inv(w) && Enabled(w, c, e) && e.Uploaded?
    ensures e.id !in w.db.packs
  {
    assert FlightOk(w, e.id);
  }

  /** Every pack an undamaged run records is stored as it was built. */
  lemma {:induction false} RecordsAreStored(w: World, c: Codec, es: seq<Event>)
    requires Inv(w) && Intact(w, c) && Kinds(w) && Runs(w, c, es) && Undamaged(es)
    ensures Kinds(After(w, c, es))
    ensures forall i | 0 <= i < |RecordsOf(w, c, es)| :: Stored(After(w, c, es).bucket, RecordsOf(w, c, es)[i])
    decreases |es|
  {
    hide Inv, Intact, Kinds, PackOf, Stored;
    if es != [] {
      var one, n := RecordsOfOne(w, c, es[0]), Next(w, c, es[0]);
      var rest := RecordsOf(n, c, es[1..]);
      assert !es[0].Damaged?;
      NextKeepsInv(w, c, es[0]);
      NextKeepsIntact(w, c, es[0]);
      KindsStay(w, c, es[0]);
      RecordsAreStored(n, c, es[1..]);
      if es[0].Recorded? {
        RecordIsStored(w, c, es);
        assert RecordsOf(w, c, es) == one + rest;
      } else {
        assert RecordsOf(w, c, es) == rest;
      }
    }
  }

  lemma {:induction false} RecordIsStored(w: World, c: Codec, es: seq<Event>)
    requires Inv(w) && Intact(w, c) && Runs(w, c, es) && Undamaged(es) && es != [] && es[0].Recorded?
    ensures Stored(After(w, c, es).bucket, PackRecord(es[0].id, PackOf(w.flights[es[0].id], c)))
  {
    hide Packed, LiveExact, RowsOk, RecordPack, Fits;
    var id := es[0].id;
    var f := w.flights[id];
    assert FlightOk(w, id) && StoredWhole(w, c, id);
    PackKind(f, c);
    NextKeepsInv(w, c, es[0]);
    PacksGrow(w, c, es[0]);
    ObjectStays(Next(w, c, es[0]), c, es[1..], ObjKey(f.kind, id));
  }

  // ── Prefixes ──────────────────────────────────────────────────────────────

  lemma {:induction false} RunSplits(w: World, c: Codec, es: seq<Event>, n: nat)
    requires Runs(w, c, es) && n <= |es|
    ensures Runs(w, c, es[..n]) && Runs(After(w, c, es[..n]), c, es[n..])
    ensures After(w, c, es) == After(After(w, c, es[..n]), c, es[n..])
    ensures RecordsOf(w, c, es) == RecordsOf(w, c, es[..n]) + RecordsOf(After(w, c, es[..n]), c, es[n..])
    decreases n
  {
    hide Enabled, Next, RecordsOfOne;
    if n == 0 {
      assert es[..0] == [] && es[0..] == es;
    } else {
      assert es[..n][0] == es[0] && es[..n][1..] == es[1..][..n - 1] && es[n..] == es[1..][n - 1..];
      RunSplits(Next(w, c, es[0]), c, es[1..], n - 1);
    }
  }

  // ── The restore ───────────────────────────────────────────────────────────

  lemma StartIsGood(c: Codec)
    ensures Inv(START) && Intact(START, c) && Kinds(START) && FlightsFit(START, c)
  {}

  lemma {:induction false} WholeIsDistinct(r: PackRecord, c: Codec)
    requires Whole(r, c)
    ensures Distinct(r.pack.entries) && forall j | 0 <= j < |r.pack.entries| :: r.pack.entries[j].len > 0
  {
    hide Fits, Concat;
    var kind: Kind, bs: seq<Body> :| IsPack(r, kind, bs, c);
    forall j | 0 <= j < |bs| ensures r.pack.entries[j].len > 0 && r.pack.entries[j].id == bs[j].id {
      LayoutAt(kind, bs, j);
    }
  }

  /** A recorded pack stored as it was built is in the listing, as it was recorded. */
  lemma {:induction false} RecordIsListed(bucket: Bucket, c: Codec, ks: seq<ObjKey>, r: PackRecord)
    requires Faithful(c) && Enumerates(ks, bucket) && Whole(r, c) && Stored(bucket, r)
    ensures ListingOf(r) in ListingFrom(ks, bucket, c)
  {
    hide Fits, Concat, Layout, Read, Faithful, ListingFrom;
    var kind: Kind, bs: seq<Body> :| IsPack(r, kind, bs, c);
    var o := ObjKey(r.pack.kind, r.id);
    StoredPackReads(bucket, o, bs, c);
    ObjectIsListed(ks, bucket, c, o);
  }

  /** The records of a run from the start, damaged or not. */
  lemma {:induction false} RunRecords(c: Codec, es: seq<Event>)
    requires Runs(START, c, es)
    ensures var rs := RecordsOf(START, c, es);
            && Recordable(START.db, rs)
            && (forall i, j | 0 <= i < |rs| && 0 <= j < |rs[i].pack.entries| :: rs[i].pack.entries[j].len > 0)
  {
    hide Runs, Inv, Intact, FlightsFit, Whole, OneKind;
    var rs := RecordsOf(START, c, es);
    StartIsGood(c);
    RecordsAreNew(START, c, es);
    RecordsAreWhole(START, c, es);
    forall i | 0 <= i < |rs|
      ensures Distinct(rs[i].pack.entries) && forall j | 0 <= j < |rs[i].pack.entries| :: rs[i].pack.entries[j].len > 0
    {
      WholeIsDistinct(rs[i], c);
    }
  }

  lemma {:induction false} SameListing(ls: seq<Listing>, a: Listing, b: Listing)
    requires DistinctIds(ls) && a in ls && b in ls && a.id == b.id
    ensures a == b
  {
    var i :| 0 <= i < |ls| && ls[i] == a;
    var j :| 0 <= j < |ls| && ls[j] == b;
    assert i == j;
  }

  /** An undamaged run's bucket lists every pack it recorded, as it was recorded. */
  lemma {:induction false} UndamagedIsListed(c: Codec, es: seq<Event>, ks: seq<ObjKey>, m: nat)
    requires Faithful(c) && Runs(START, c, es) && Undamaged(es) && Enumerates(ks, After(START, c, es).bucket)
    requires m <= |RecordsOf(START, c, es)|
    ensures var rs, listing := RecordsOf(START, c, es), ListingFrom(ks, After(START, c, es).bucket, c);
            && OneKind(After(START, c, es).bucket) && LaterIsListed(rs, m, listing)
            && ReadsAsRecorded(rs, Newest(rs[..m]), listing)
  {
    hide Runs, Inv, Intact, FlightsFit, Whole, Stored, OneKind, Faithful, ListingFrom, Enumerates, Newer, Newest, DistinctIds;
    var rs, w := RecordsOf(START, c, es), After(START, c, es);
    var listing := ListingFrom(ks, w.bucket, c);
    StartIsGood(c);
    RecordsAreWhole(START, c, es);
    RecordsAreStored(START, c, es);
    ListingIdsDistinct(ks, w.bucket, c);
    forall i | 0 <= i < |rs| ensures ListingOf(rs[i]) in listing {
      RecordIsListed(w.bucket, c, ks, rs[i]);
    }
    forall l, i | l in listing && 0 <= i < |rs| && rs[i].id == l.id ensures l == ListingOf(rs[i]) {
      SameListing(listing, l, ListingOf(rs[i]));
    }
  }

  lemma ExportsIgnoresRows(s: Lines, a: Db, b: Db)
    requires Exports(s, a) && a.packs == b.packs && a.locs == b.locs
    ensures Exports(s, b)
  {}

  /** A restore changes no body. */
  lemma {:induction false} RestoreKeepsBodies(lost: Db, s: Lines, listing: seq<Listing>, k: BodyKey)
    requires GoodLines(s)
    ensures k in RestoredFrom(lost, s, listing).rows <==> k in lost.rows
    ensures k in lost.rows ==> RestoredFrom(lost, s, listing).rows[k].body == lost.rows[k].body
  {
    hide ReindexAll, SortListings, NewerThan, MaxId, PacksOf, LocsOf, GoodLines;
    LinesFit(s);
    ReindexAllAt(Replaced(lost, PacksOf(s.packs), LocsOf(s.locs)), SortListings(NewerThan(listing, MaxId(s.packs))), k);
  }

  /** Where the tables are the running ones, so is every read. */
  lemma {:induction false} RestoreKeepsReads(lost: Db, s: Lines, listing: seq<Listing>, db: Db, bucket: Bucket, k: BodyKey)
    requires GoodLines(s) && lost.rows == db.rows && RestoredFrom(lost, s, listing).locs == db.locs
    ensures ReadBody(RestoredFrom(lost, s, listing), bucket, k) == ReadBody(db, bucket, k)
  {
    hide RestoredFrom, GoodLines, Fetch;
    RestoreKeepsBodies(lost, s, listing, k);
  }

  /**
   Take a snapshot at any point of a run, and at its end list the bucket, load the
   snapshot into the archive's rows, whatever has become of its map, and reindex.
   Objects may have been damaged or lost, as long as no pack id comes to have
   objects of two kinds and no pack recorded since is changed into another that
   reads. The snapshot loads. The archive's own tables come back exactly when
   `Restorable` holds of the run's records, the point and the listing; and then
   every body reads as it did.
   */
  lemma {:induction false} RestoreGivesBack(c: Codec, es: seq<Event>, n: nat, s: Lines, ks: seq<ObjKey>, lost: Db)
    requires Runs(START, c, es) && n <= |es| && Runs(START, c, es[..n])
    requires Exports(s, After(START, c, es[..n]).db)
    requires Enumerates(ks, After(START, c, es).bucket) && lost.rows == After(START, c, es).db.rows
    requires OneKind(After(START, c, es).bucket)
    requires ReadsAsRecorded(RecordsOf(START, c, es), Newest(RecordsOf(START, c, es[..n])),
                             ListingFrom(ks, After(START, c, es).bucket, c))
    ensures var w, rs := After(START, c, es), RecordsOf(START, c, es);
            var m, listing := |RecordsOf(START, c, es[..n])|, ListingFrom(ks, w.bucket, c);
            && GoodLines(s) && m <= |rs|
            && var after := RestoredFrom(lost, s, listing);
               && (after.packs == w.db.packs && after.locs == w.db.locs <==> Restorable(rs, m, listing))
               && (Restorable(rs, m, listing) ==>
                     forall k :: ReadBody(after, w.bucket, k) == ReadBody(w.db, w.bucket, k))
  {
    hide Runs, RecordAll, Exports, GoodLines, Restorable, ReadsAsRecorded, RestoredFrom, ListingFrom, Enumerates, OneKind, DistinctIds, Recordable, ReadBody;
    var w, rs, early := After(START, c, es), RecordsOf(START, c, es), RecordsOf(START, c, es[..n]);
    var m, listing := |early|, ListingFrom(ks, w.bucket, c);
    StartIsGood(c);
    RunSplits(START, c, es, n);
    assert rs[..m] == early;
    TablesAreRecords(START, c, es, START.db);
    TablesAreRecords(START, c, es[..n], START.db);
    RunRecords(c, es);
    ListingIdsDistinct(ks, w.bucket, c);
    ExportsIgnoresRows(s, After(START, c, es[..n]).db, RecordAll(START.db, early));
    RestoreFromAnyDay(lost, START.db.rows, rs, m, s, listing);
    if Restorable(rs, m, listing) {
      forall k ensures ReadBody(RestoredFrom(lost, s, listing), w.bucket, k) == ReadBody(w.db, w.bucket, k) {
        RestoreKeepsReads(lost, s, listing, w.db, w.bucket, k);
      }
    }
  }

  /**
   Of an undamaged run nothing more is asked: every pack recorded since can be
   read, so the tables come back exactly when there are no strays and the ids are
   in order, and then every body archived reads as its latest bytes.
   */
  lemma {:induction false} UndamagedRestore(c: Codec, es: seq<Event>, n: nat, s: Lines, ks: seq<ObjKey>, lost: Db)
    requires Faithful(c) && Runs(START, c, es) && Undamaged(es) && n <= |es| && Runs(START, c, es[..n])
    requires Exports(s, After(START, c, es[..n]).db)
    requires Enumerates(ks, After(START, c, es).bucket) && lost.rows == After(START, c, es).db.rows
    ensures var w, rs := After(START, c, es), RecordsOf(START, c, es);
            var m, listing := |RecordsOf(START, c, es[..n])|, ListingFrom(ks, w.bucket, c);
            && GoodLines(s) && m <= |rs|
            && var after := RestoredFrom(lost, s, listing);
               && (after.packs == w.db.packs && after.locs == w.db.locs
                   <==> NoStrays(rs, m, listing) && LaterIsNewer(rs, m) && NewestLast(rs[m..]))
               && (after.packs == w.db.packs && after.locs == w.db.locs ==>
                     forall k | k in w.latest :: ReadBody(after, w.bucket, k) == Some(w.latest[k]))
  {
    hide Runs, Exports, GoodLines, NoStrays, LaterIsNewer, NewestLast, LaterIsListed, ReadsAsRecorded, RestoredFrom, ListingFrom, Enumerates, Faithful, OneKind, ReadBody;
    var w, m := After(START, c, es), |RecordsOf(START, c, es[..n])|;
    RunSplits(START, c, es, n);
    assert RecordsOf(START, c, es)[..m] == RecordsOf(START, c, es[..n]);
    UndamagedIsListed(c, es, ks, m);
    RestoreGivesBack(c, es, n, s, ks, lost);
    forall k | k in w.latest ensures ReadBody(w.db, w.bucket, k) == Some(w.latest[k]) {
      EveryRunReads(c, es, k);
    }
  }
}
