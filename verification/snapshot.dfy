/**
 The daily snapshots of the map: how one is checked before it is loaded, what
 the checks refuse, and what loading one does to the archive's rows.
 */
module Snapshot {
  import opened Wrappers
  import opened Sums
  import opened Pack
  import opened Archive
  import opened Offload
  import opened Recovery

  datatype PackLine = PackLine(id: PackId, row: PackRow)
  datatype LocLine = LocLine(key: BodyKey, pack: PackId, offset: int, len: int, sha: Digest)

  /** A snapshot's two objects, parsed. */
  datatype Lines = Lines(packs: seq<PackLine>, locs: seq<LocLine>)

  /** The bytes the location lines put in a pack. */
  function LinesIn(ls: seq<LocLine>, p: PackId): int {
    if ls == [] then 0
    else LinesIn(ls[..|ls| - 1], p) + if ls[|ls| - 1].pack == p then ls[|ls| - 1].len else 0
  }

  predicate DistinctPacks(ps: seq<PackLine>) {
    forall i, j | 0 <= i < j < |ps| :: ps[i].id != ps[j].id
  }

  predicate GoodLine(ps: seq<PackLine>, l: LocLine) {
    && (exists i | 0 <= i < |ps| :: ps[i].id == l.pack && ps[i].row.kind == l.key.kind)
    && l.len > 0 && l.offset >= 0
  }

  /** Every pack once, every location in a listed pack of its kind, and live bytes that add up. */
  predicate GoodLines(s: Lines) {
    && DistinctPacks(s.packs)
    && (forall i | 0 <= i < |s.locs| :: GoodLine(s.packs, s.locs[i]))
    && (forall i | 0 <= i < |s.packs| :: s.packs[i].row.live == LinesIn(s.locs, s.packs[i].id))
  }

  predicate PackListed(ps: seq<PackLine>, p: PackId) {
    exists j | 0 <= j < |ps| :: ps[j].id == p
  }

  /** The kind of each pack listed. */
  predicate KindsOf(ps: seq<PackLine>, kinds: map<PackId, Kind>) {
    && (forall p | p in kinds :: PackListed(ps, p))
    && (forall j | 0 <= j < |ps| :: ps[j].id in kinds && kinds[ps[j].id] == ps[j].row.kind)
  }

  /** The packs' kinds, or nothing if one is listed twice. */
  method ReadPacks(ps: seq<PackLine>) returns (kinds: Option<map<PackId, Kind>>)
    ensures kinds.Some? <==> DistinctPacks(ps)
    ensures kinds.Some? ==> KindsOf(ps, kinds.value)
  {
    var m: map<PackId, Kind> := map[];
    for i := 0 to |ps|
      invariant DistinctPacks(ps[..i]) && KindsOf(ps[..i], m)
    {
      if ps[i].id in m {
        var j :| 0 <= j < i && ps[..i][j].id == ps[i].id;
        assert ps[j].id == ps[i].id;
        return None;
      }
      var next := m[ps[i].id := ps[i].row.kind];
      forall p | p in next ensures PackListed(ps[..i + 1], p) {
        if p == ps[i].id {
          assert ps[..i + 1][i].id == p;
        } else {
          var j :| 0 <= j < i && ps[..i][j].id == p;
          assert ps[..i + 1][j].id == p;
        }
      }
      m := next;
    }
    assert ps[..|ps|] == ps;
    kinds := Some(m);
  }

  lemma GoodByKind(ps: seq<PackLine>, kinds: map<PackId, Kind>, l: LocLine)
    requires DistinctPacks(ps) && KindsOf(ps, kinds)
    ensures GoodLine(ps, l) <==> l.pack in kinds && kinds[l.pack] == l.key.kind && l.len > 0 && l.offset >= 0
  {}

  /** The bytes located in each pack, or nothing if a line is not good. */
  method ReadLocations(ps: seq<PackLine>, kinds: map<PackId, Kind>, ls: seq<LocLine>) returns (r: Option<map<PackId, int>>)
    requires DistinctPacks(ps) && KindsOf(ps, kinds)
    ensures r.Some? <==> forall i | 0 <= i < |ls| :: GoodLine(ps, ls[i])
    ensures r.Some? ==> forall p :: Get(r.value, p) == LinesIn(ls, p)
  {
    hide GoodLine, DistinctPacks, KindsOf;
    var located: map<PackId, int> := map[];
    for i := 0 to |ls|
      invariant forall j | 0 <= j < i :: GoodLine(ps, ls[j])
      invariant forall p :: Get(located, p) == LinesIn(ls[..i], p)
    {
      var l := ls[i];
      GoodByKind(ps, kinds, l);
      if l.pack !in kinds || kinds[l.pack] != l.key.kind {
        return None;
      }
      if l.len <= 0 || l.offset < 0 {
        return None;
      }
      assert ls[..i + 1][..i] == ls[..i];
      located := located[l.pack := Get(located, l.pack) + l.len];
    }
    assert ls[..|ls|] == ls;
    r := Some(located);
  }

  /** `load_snapshot`'s checks. */
  method LoadSnapshot(s: Lines) returns (ok: bool)
    ensures ok <==> GoodLines(s)
  {
    hide DistinctPacks, GoodLine, LinesIn, KindsOf;
    var kinds := ReadPacks(s.packs);
    if kinds.None? {
      return false;
    }
    var located := ReadLocations(s.packs, kinds.value, s.locs);
    if located.None? {
      return false;
    }
    for i := 0 to |s.packs|
      invariant forall j | 0 <= j < i :: s.packs[j].row.live == LinesIn(s.locs, s.packs[j].id)
    {
      if Get(located.value, s.packs[i].id) != s.packs[i].row.live {
        return false;
      }
    }
    ok := true;
  }

  function Get(m: map<PackId, int>, p: PackId): int {
    if p in m then m[p] else 0
  }

  // ── What a snapshot of the archive is ─────────────────────────────────────

  function LocOf(l: LocLine): Loc
    requires l.offset >= 0 && l.len >= 0
  {
    Loc(l.pack, l.offset, l.len, l.sha)
  }

  predicate DistinctKeys(ls: seq<LocLine>) {
    forall i, j | 0 <= i < j < |ls| :: ls[i].key != ls[j].key
  }

  predicate IsLine(locs: map<BodyKey, Loc>, l: LocLine) {
    l.key in locs && l.offset >= 0 && l.len >= 0 && locs[l.key] == LocOf(l)
  }

  /** The lines of both tables, in any order. */
  predicate Exports(s: Lines, db: Db) {
    && DistinctPacks(s.packs) && DistinctKeys(s.locs)
    && (forall i | 0 <= i < |s.packs| :: s.packs[i].id in db.packs && db.packs[s.packs[i].id] == s.packs[i].row)
    && (forall p | p in db.packs :: exists i | 0 <= i < |s.packs| :: s.packs[i].id == p)
    && (forall i | 0 <= i < |s.locs| :: IsLine(db.locs, s.locs[i]))
    && (forall k | k in db.locs :: exists i | 0 <= i < |s.locs| :: s.locs[i].key == k)
  }

  /** A body is located in a pack of its kind, with at least a byte. */
  predicate KindsAgree(db: Db) {
    forall k | k in db.locs ::
      db.locs[k].pack in db.packs && db.packs[db.locs[k].pack].kind == k.kind && db.locs[k].len > 0
  }

  /** Recording a pack of bodies keeps it so. */
  lemma {:induction false} RecordKeepsKinds(db: Db, id: PackId, p: Pack, now: int)
    requires KindsAgree(db) && LiveExact(db) && id !in db.packs
    requires forall i | 0 <= i < |p.entries| :: p.entries[i].len > 0
    ensures KindsAgree(RecordPack(db, id, p, now))
  {
    hide LocateAll, Located;
    var with := db.(packs := db.packs[id := PackRow(p.kind, |p.bytes|, |p.entries|, Lens(p.entries), p.sha, now)]);
    var after := LocateAll(with, id, p.kind, p.entries);
    forall k | k in after.locs
      ensures after.locs[k].pack in after.packs && after.packs[after.locs[k].pack].kind == k.kind && after.locs[k].len > 0
    {
      LocateAllAt(with, id, p.kind, p.entries, k);
      FoundIn(p.entries, k.id);
      LocateAllSlack(with, id, p.kind, p.entries, id);
      LocateAllSlack(with, id, p.kind, p.entries, after.locs[k].pack);
    }
  }

  function KeysOf(ls: seq<LocLine>, p: PackId): set<BodyKey> {
    set i | 0 <= i < |ls| && ls[i].pack == p :: ls[i].key
  }

  /** The lines' bytes are their keys' bytes in the table. */
  lemma {:induction false} LinesSum(ls: seq<LocLine>, locs: map<BodyKey, Loc>, p: PackId)
    requires DistinctKeys(ls) && forall i | 0 <= i < |ls| :: IsLine(locs, ls[i])
    ensures LinesIn(ls, p) == Sum(KeysOf(ls, p), LenOf(locs))
  {
    if ls != [] {
      var init, last := ls[..|ls| - 1], ls[|ls| - 1];
      LinesSum(init, locs, p);
      assert forall i | 0 <= i < |init| :: init[i] == ls[i];
      if last.pack == p {
        assert last.key !in KeysOf(init, p);
        assert KeysOf(ls, p) == KeysOf(init, p) + {last.key} by {
          assert ls[|ls| - 1].key in KeysOf(ls, p);
        }
        SumAdd(KeysOf(init, p), LenOf(locs), last.key);
      } else {
        assert KeysOf(ls, p) == KeysOf(init, p);
      }
    }
  }

  lemma {:induction false} AllKeys(s: Lines, db: Db, p: PackId)
    requires Exports(s, db)
    ensures KeysOf(s.locs, p) == KeysIn(db.locs, p)
  {
    forall k ensures k in KeysOf(s.locs, p) <==> k in KeysIn(db.locs, p) {
      if k in KeysIn(db.locs, p) {
        var i :| 0 <= i < |s.locs| && s.locs[i].key == k;
        assert IsLine(db.locs, s.locs[i]);
      }
      if k in KeysOf(s.locs, p) {
        var i :| 0 <= i < |s.locs| && s.locs[i].pack == p && s.locs[i].key == k;
        assert IsLine(db.locs, s.locs[i]);
      }
    }
  }

  /** A snapshot of an archive whose live bytes are exact passes its checks. */
  lemma {:induction false} ExportIsGood(s: Lines, db: Db)
    requires Exports(s, db) && LiveExact(db) && KindsAgree(db)
    ensures GoodLines(s)
  {
    hide LinesIn;
    forall i | 0 <= i < |s.locs| ensures GoodLine(s.packs, s.locs[i]) {
      assert IsLine(db.locs, s.locs[i]);
      var j :| 0 <= j < |s.packs| && s.packs[j].id == s.locs[i].pack;
    }
    forall i | 0 <= i < |s.packs| ensures s.packs[i].row.live == LinesIn(s.locs, s.packs[i].id) {
      LinesSum(s.locs, db.locs, s.packs[i].id);
      AllKeys(s, db, s.packs[i].id);
    }
  }

  /** A locations object cut short anywhere is refused. */
  lemma {:induction false} CutShortIsRefused(s: Lines, db: Db, n: nat)
    requires Exports(s, db) && LiveExact(db) && KindsAgree(db) && n < |s.locs|
    ensures !GoodLines(Lines(s.packs, s.locs[..n]))
  {
    hide LinesIn;
    var cut, p := s.locs[..n], s.locs[n].pack;
    CutShortSums(s, db, n);
    assert IsLine(db.locs, s.locs[n]);
    var j :| 0 <= j < |s.packs| && s.packs[j].id == p;
    assert s.packs[j].row.live == Located(db.locs, p);
  }

  /** The lines before a missing one hold less than its pack does. */
  lemma {:induction false} CutShortSums(s: Lines, db: Db, n: nat)
    requires Exports(s, db) && KindsAgree(db) && n < |s.locs|
    ensures LinesIn(s.locs[..n], s.locs[n].pack) < Located(db.locs, s.locs[n].pack)
  {
    hide LinesIn;
    var cut, missing := s.locs[..n], s.locs[n];
    var p := missing.pack;
    var all := KeysIn(db.locs, p);
    assert IsLine(db.locs, missing);
    LinesSum(cut, db.locs, p);
    CutShortKeys(s, db, n);
    SumRemove(all, LenOf(db.locs), missing.key);
    SumSubset(KeysOf(cut, p), all - {missing.key}, LenOf(db.locs));
  }

  lemma {:induction false} CutShortKeys(s: Lines, db: Db, n: nat)
    requires Exports(s, db) && n < |s.locs|
    ensures KeysOf(s.locs[..n], s.locs[n].pack) <= KeysIn(db.locs, s.locs[n].pack) - {s.locs[n].key}
  {
    var cut, p := s.locs[..n], s.locs[n].pack;
    forall k | k in KeysOf(cut, p) ensures k in KeysIn(db.locs, p) - {s.locs[n].key} {
      var i :| 0 <= i < n && cut[i].pack == p && cut[i].key == k;
      assert IsLine(db.locs, s.locs[i]);
    }
  }

  lemma {:induction false} SumSubset(a: set<BodyKey>, b: set<BodyKey>, f: BodyKey -> int)
    requires a <= b && forall k | k in b :: f(k) >= 0
    ensures Sum(a, f) <= Sum(b, f)
  {
    SumUnion(a, b - a, f);
    assert a + (b - a) == b;
    SumBounds(b - a, f, 0);
  }

  /** A body the last recorded pack lists is located in it. */
  lemma {:induction false} LastPackLocates(db: Db, rs: seq<PackRecord>, k: BodyKey)
    requires LiveExact(db) && Recordable(db, rs) && rs != []
    requires Listed(rs[|rs| - 1].pack.kind, rs[|rs| - 1].pack.entries, k).Some?
    ensures k in RecordAll(db, rs).locs && RecordAll(db, rs).locs[k].pack == rs[|rs| - 1].id
  {
    hide RecordAll, ReindexAll;
    RecordsAreReindex(db, rs);
    ReindexAllAt(db, Listings(rs), k);
  }

  /** A body located in a pack recorded since. */
  lemma {:induction false} NewlyLocated(db: Db, rs: seq<PackRecord>) returns (k: BodyKey)
    requires LiveExact(db) && Recordable(db, rs) && rs != [] && rs[|rs| - 1].pack.entries != []
    ensures k in RecordAll(db, rs).locs && RecordAll(db, rs).locs[k].pack == rs[|rs| - 1].id
    ensures rs[|rs| - 1].id !in db.packs && rs[|rs| - 1].id in RecordAll(db, rs).packs
    ensures LiveExact(RecordAll(db, rs))
  {
    hide RecordAll, LiveExact;
    var last := rs[|rs| - 1];
    k := BodyKey(last.pack.kind, last.pack.entries[0].id);
    FindsFirst(last.pack.kind, last.pack.entries);
    LastPackLocates(db, rs, k);
    RecordedIds(db, rs, last.id);
  }

  /** Locations newer than their packs name a pack that is not listed. */
  lemma {:induction false} NewerLocationsRefused(before: Lines, after: Lines, db: Db, now: Db, k: BodyKey)
    requires Exports(before, db) && Exports(after, now)
    requires k in now.locs && now.locs[k].pack !in db.packs
    ensures !GoodLines(Lines(before.packs, after.locs))
  {
    hide LinesIn;
    var i :| 0 <= i < |after.locs| && after.locs[i].key == k;
    assert IsLine(now.locs, after.locs[i]);
    assert !GoodLine(before.packs, after.locs[i]);
  }

  /** Packs newer than their locations list one with live bytes and nothing located. */
  lemma {:induction false} NewerPacksRefused(before: Lines, after: Lines, db: Db, now: Db, k: BodyKey)
    requires Exports(before, db) && Exports(after, now) && LiveExact(db) && LiveExact(now) && KindsAgree(now)
    requires k in now.locs && now.locs[k].pack !in db.packs
    ensures !GoodLines(Lines(after.packs, before.locs))
  {
    hide LinesIn;
    var p := now.locs[k].pack;
    var j :| 0 <= j < |after.packs| && after.packs[j].id == p;
    LinesSum(before.locs, db.locs, p);
    AllKeys(before, db, p);
    assert KeysIn(db.locs, p) == {};
    SumRemove(KeysIn(now.locs, p), LenOf(now.locs), k);
    SumBounds(KeysIn(now.locs, p) - {k}, LenOf(now.locs), 0);
    assert after.packs[j].row.live == Located(now.locs, p);
  }

  /**
   The two objects of one date are written one after the other. A pair torn
   between two days, with packs recorded in between, is refused whichever half is
   the newer.
   */
  lemma {:induction false} TornPairIsRefused(before: Lines, after: Lines, db: Db, rs: seq<PackRecord>)
    requires LiveExact(db) && Recordable(db, rs) && rs != [] && rs[|rs| - 1].pack.entries != []
    requires Exports(before, db) && Exports(after, RecordAll(db, rs)) && KindsAgree(RecordAll(db, rs))
    ensures !GoodLines(Lines(before.packs, after.locs)) && !GoodLines(Lines(after.packs, before.locs))
  {
    hide GoodLines, Exports, RecordAll, LiveExact, KindsAgree;
    var k := NewlyLocated(db, rs);
    NewerLocationsRefused(before, after, db, RecordAll(db, rs), k);
    NewerPacksRefused(before, after, db, RecordAll(db, rs), k);
  }

  lemma {:induction false} FindsFirst(kind: Kind, es: seq<Entry>)
    requires es != []
    ensures Listed(kind, es, BodyKey(kind, es[0].id)).Some?
  {
    FoundIn(es, es[0].id);
  }

  // ── Loading one ───────────────────────────────────────────────────────────

  function PacksOf(ps: seq<PackLine>): map<PackId, PackRow> {
    if ps == [] then map[] else PacksOf(ps[..|ps| - 1])[ps[|ps| - 1].id := ps[|ps| - 1].row]
  }

  function LocsOf(ls: seq<LocLine>): map<BodyKey, Loc>
    requires forall i | 0 <= i < |ls| :: ls[i].offset >= 0 && ls[i].len >= 0
  {
    if ls == [] then map[] else LocsOf(ls[..|ls| - 1])[ls[|ls| - 1].key := LocOf(ls[|ls| - 1])]
  }

  lemma {:induction false} PacksOfAt(ps: seq<PackLine>, p: PackId)
    requires DistinctPacks(ps)
    ensures p in PacksOf(ps) <==> exists i | 0 <= i < |ps| :: ps[i].id == p
    ensures forall i | 0 <= i < |ps| && ps[i].id == p :: PacksOf(ps)[p] == ps[i].row
  {
    if ps != [] {
      PacksOfAt(ps[..|ps| - 1], p);
      assert forall i | 0 <= i < |ps| - 1 :: ps[..|ps| - 1][i] == ps[i];
    }
  }

  lemma {:induction false} LocsOfAt(ls: seq<LocLine>, k: BodyKey)
    requires DistinctKeys(ls) && forall i | 0 <= i < |ls| :: ls[i].offset >= 0 && ls[i].len >= 0
    ensures k in LocsOf(ls) <==> exists i | 0 <= i < |ls| :: ls[i].key == k
    ensures forall i | 0 <= i < |ls| && ls[i].key == k :: LocsOf(ls)[k] == LocOf(ls[i])
  {
    if ls != [] {
      LocsOfAt(ls[..|ls| - 1], k);
      assert forall i | 0 <= i < |ls| - 1 :: ls[..|ls| - 1][i] == ls[i];
    }
  }

  /** `replace_tables`: both tables replaced, every located row marked packed. */
  function Replaced(db: Db, packs: map<PackId, PackRow>, locs: map<BodyKey, Loc>): Db {
    Db(map k | k in db.rows :: if k in locs then db.rows[k].(packed := true) else db.rows[k], packs, locs)
  }

  /** Loading a snapshot gives back the tables it was taken of. */
  lemma {:induction false} SnapshotRoundTrip(s: Lines, db: Db, lost: Db)
    requires Exports(s, db) && LiveExact(db) && KindsAgree(db)
    ensures GoodLines(s)
    ensures Replaced(lost, PacksOf(s.packs), LocsOf(s.locs)).packs == db.packs
    ensures Replaced(lost, PacksOf(s.packs), LocsOf(s.locs)).locs == db.locs
  {
    hide PacksOf, LocsOf, LiveExact, Exports, KindsAgree, GoodLines;
    ExportIsGood(s, db);
    LinesFit(s);
    PacksComeBack(s, db);
    LocsComeBack(s, db);
  }

  lemma {:induction false} PacksComeBack(s: Lines, db: Db)
    requires Exports(s, db)
    ensures PacksOf(s.packs) == db.packs
  {
    hide PacksOf, IsLine;
    forall p ensures (p in PacksOf(s.packs) <==> p in db.packs) && (p in db.packs ==> PacksOf(s.packs)[p] == db.packs[p]) {
      PacksOfAt(s.packs, p);
    }
  }

  lemma {:induction false} LocsComeBack(s: Lines, db: Db)
    requires Exports(s, db) && forall i | 0 <= i < |s.locs| :: s.locs[i].offset >= 0 && s.locs[i].len >= 0
    ensures LocsOf(s.locs) == db.locs
  {
    hide LocsOf;
    forall k ensures (k in LocsOf(s.locs) <==> k in db.locs) && (k in db.locs ==> LocsOf(s.locs)[k] == db.locs[k]) {
      LocsOfAt(s.locs, k);
      if i :| 0 <= i < |s.locs| && s.locs[i].key == k {
        assert IsLine(db.locs, s.locs[i]);
      }
    }
  }

  /**
   What can be seen of a map before it is loaded: it locates a local body only by
   the digest of the bytes held, and a freed one by the digest known of it.
   */
  predicate MapFits(db: Db, locs: map<BodyKey, Loc>) {
    forall k | k in db.rows ::
      if db.rows[k].body != [] then
        k in locs ==> locs[k].sha == Sha256(db.rows[k].body) && locs[k].len == |db.rows[k].body|
      else
        k in locs && k in db.locs && locs[k].sha == db.locs[k].sha && locs[k].len == db.locs[k].len
  }

  /** Loading a map keeps the read guarantee of `Offload` exactly when the map fits the rows and the map it replaces. */
  lemma {:induction false} LoadKeepsReadsIff(db: Db, latest: map<BodyKey, Bytes>, packs: map<PackId, PackRow>, locs: map<BodyKey, Loc>)
    requires RowsOk(db, latest)
    ensures RowsOk(Replaced(db, packs, locs), latest) <==> MapFits(db, locs)
  {
    var after := Replaced(db, packs, locs);
    forall k | k in db.rows
      ensures RowOk(after, latest, k) <==>
              if db.rows[k].body != [] then
                k in locs ==> locs[k].sha == Sha256(db.rows[k].body) && locs[k].len == |db.rows[k].body|
              else
                k in locs && k in db.locs && locs[k].sha == db.locs[k].sha && locs[k].len == db.locs[k].len
    {
      assert RowOk(db, latest, k);
    }
    if RowsOk(after, latest) {
      assert forall k | k in db.rows :: RowOk(after, latest, k);
    }
  }

  /**
   A body archived again with other bytes and not packed yet does not fit: loading
   the archive's own map marks it packed, and once freed it reads as it was before.
   */
  lemma {:induction false} LoadStale(c: Codec, x: Id, id: PackId, a: Bytes, b: Bytes)
    requires a != [] && b != [] && a != b
    ensures var k := BodyKey(Match, x);
            var f := Flight(Match, [Body(x, a)], true, true);
            var again := PutBody(RecordPack(PutBody(Db(map[], map[], map[]), k, a), id, PackOf(f, c), 0), k, b);
            var bucket := map[ObjKey(Match, id) := PackOf(f, c).bytes];
            && ReadBody(FreeBody(again, k), bucket, k) == Some(b)
            && ReadBody(FreeBody(Replaced(again, again.packs, again.locs), k), bucket, k) == Some(a)
  {
    hide LocateAll, Layout, Find;
    var k := BodyKey(Match, x);
    var f := Flight(Match, [Body(x, a)], true, true);
    var p := PackOf(f, c);
    var first := PutBody(Db(map[], map[], map[]), k, a);
    var with := first.(packs := first.packs[id := PackRow(p.kind, |p.bytes|, |p.entries|, Lens(p.entries), p.sha, 0)]);
    assert KeyAt(f, 0) == k;
    PackEntry(f, c, k);
    LocateAllAt(with, id, Match, p.entries, k);
    PackSlice(Match, f.bodies, c, 0);
  }

  // ── The restore, run ──────────────────────────────────────────────────────

  function MaxId(ps: seq<PackLine>): Option<PackId> {
    if ps == [] then None
    else
      var rest := MaxId(ps[..|ps| - 1]);
      if rest.Some? && rest.value >= ps[|ps| - 1].id then rest else Some(ps[|ps| - 1].id)
  }

  /** Whether a candidate reads cleanly. */
  predicate Loads(s: Option<Lines>) {
    s.Some? && GoodLines(s.value)
  }

  /** The map restored from a snapshot that loads: its tables, then the packs after its newest. */
  ghost function RestoredFrom(db: Db, s: Lines, listing: seq<Listing>): Db
    requires GoodLines(s)
  {
    ReindexAll(Replaced(db, PacksOf(s.packs), LocsOf(s.locs)), SortListings(NewerThan(listing, MaxId(s.packs))))
  }

  lemma {:induction false} MaxIdIs(ps: seq<PackLine>, x: PackId)
    requires PackListed(ps, x) && forall i | 0 <= i < |ps| :: ps[i].id <= x
    ensures MaxId(ps) == Some(x)
  {
    var init := ps[..|ps| - 1];
    if PackListed(init, x) {
      MaxIdIs(init, x);
    } else {
      LastOrBefore(ps, x);
      MaxIdBelow(init, x);
    }
  }

  lemma {:induction false} LastOrBefore(ps: seq<PackLine>, x: PackId)
    requires ps != [] && PackListed(ps, x)
    ensures PackListed(ps[..|ps| - 1], x) || ps[|ps| - 1].id == x
  {
    var j :| 0 <= j < |ps| && ps[j].id == x;
    if j < |ps| - 1 {
      assert ps[..|ps| - 1][j].id == x;
    }
  }

  lemma {:induction false} MaxIdBelow(ps: seq<PackLine>, x: PackId)
    requires forall i | 0 <= i < |ps| :: ps[i].id <= x
    ensures MaxId(ps).Some? ==> PackListed(ps, MaxId(ps).value)
    ensures MaxId(ps).Some? ==> MaxId(ps).value <= x
  {
    if ps != [] {
      var init := ps[..|ps| - 1];
      MaxIdBelow(init, x);
      if MaxId(ps) == MaxId(init) && PackListed(init, MaxId(ps).value) {
        var j :| 0 <= j < |init| && init[j].id == MaxId(ps).value;
        assert ps[j].id == MaxId(ps).value;
      } else {
        assert ps[|ps| - 1].id == MaxId(ps).value;
      }
    }
  }

  /** A pack a snapshot lists was recorded by then. */
  lemma {:induction false} ListedWasRecorded(s: Lines, db: Db, rs: seq<PackRecord>, i: nat) returns (j: nat)
    requires LiveExact(db) && db.packs == map[] && Recordable(db, rs) && Exports(s, RecordAll(db, rs)) && i < |s.packs|
    ensures j < |rs| && rs[j].id == s.packs[i].id
  {
    hide RecordAll;
    RecordedIds(db, rs, s.packs[i].id);
    j :| 0 <= j < |rs| && rs[j].id == s.packs[i].id;
  }

  /** The newest pack a snapshot lists is the newest recorded by then. */
  lemma {:induction false} NewestListed(s: Lines, db: Db, rs: seq<PackRecord>)
    requires LiveExact(db) && db.packs == map[] && Recordable(db, rs) && Exports(s, RecordAll(db, rs))
    ensures MaxId(s.packs) == Newest(rs)
  {
    hide RecordAll, LiveExact, MaxId, Newest;
    NewestIsGreatest(rs);
    forall i | 0 <= i < |s.packs| ensures rs != [] && s.packs[i].id <= Newest(rs).value {
      var j := ListedWasRecorded(s, db, rs, i);
    }
    assert s.packs != [] ==> rs != [] by {
      if s.packs != [] {
        var j := ListedWasRecorded(s, db, rs, 0);
      }
    }
    if rs == [] {
      NoMax(s.packs);
    } else {
      var newest := Newest(rs).value;
      RecordedIds(db, rs, newest);
      assert PackListed(s.packs, newest);
      MaxIdIs(s.packs, newest);
    }
  }

  lemma NoMax(ps: seq<PackLine>)
    ensures ps == [] ==> MaxId(ps) == None
  {}

  lemma {:induction false} RecordsKeepKinds(db: Db, rs: seq<PackRecord>)
    requires LiveExact(db) && KindsAgree(db) && Recordable(db, rs)
    requires forall i, j | 0 <= i < |rs| && 0 <= j < |rs[i].pack.entries| :: rs[i].pack.entries[j].len > 0
    ensures KindsAgree(RecordAll(db, rs)) && LiveExact(RecordAll(db, rs))
  {
    hide LiveExact, KindsAgree, RecordPack;
    if rs != [] {
      var init, last := rs[..|rs| - 1], rs[|rs| - 1];
      RecordsKeepKinds(db, init);
      RecordedIds(db, init, last.id);
      RecordedIds(db, rs, last.id);
      RecordKeepsKinds(RecordAll(db, init), last.id, last.pack, TimeOf(last.id));
    }
  }

  /**
   The snapshot of any day loads, and restoring from it, whatever the archive's map
   was, gives back the map the archive has after every pack exactly when
   `Restorable` says so of that day: whichever such snapshot a restore falls back
   to, it ends the same.
   */
  lemma {:induction false} RestoreFromAnyDay(
    lost: Db, rows: map<BodyKey, Row>, rs: seq<PackRecord>, m: nat, s: Lines, listing: seq<Listing>)
    requires m <= |rs| && Recordable(Db(rows, map[], map[]), rs)
    requires forall i, j | 0 <= i < |rs| && 0 <= j < |rs[i].pack.entries| :: rs[i].pack.entries[j].len > 0
    requires Exports(s, RecordAll(Db(rows, map[], map[]), rs[..m]))
    requires DistinctIds(listing) && ReadsAsRecorded(rs, Newest(rs[..m]), listing)
    ensures GoodLines(s)
    ensures RestoredFrom(lost, s, listing).packs == RecordAll(Db(rows, map[], map[]), rs).packs
            && RestoredFrom(lost, s, listing).locs == RecordAll(Db(rows, map[], map[]), rs).locs
            <==> Restorable(rs, m, listing)
  {
    hide RecordAll, ReindexAll, GoodLines, SortListings, NewerThan, MaxId, PacksOf, LocsOf, Exports, KindsAgree, Restorable, ReadsAsRecorded, Newest;
    var was := Db(rows, map[], map[]);
    var early := rs[..m];
    NoKinds(was);
    RecordsKeepKinds(was, early);
    SnapshotRoundTrip(s, RecordAll(was, early), lost);
    LinesFit(s);
    NewestListed(s, was, early);
    RestoreMatchesIff(Replaced(lost, PacksOf(s.packs), LocsOf(s.locs)), rows, rs, m, listing);
  }

  lemma {:induction false} LinesFit(s: Lines)
    requires GoodLines(s)
    ensures forall i | 0 <= i < |s.locs| :: s.locs[i].offset >= 0 && s.locs[i].len >= 0
  {
    forall i | 0 <= i < |s.locs| ensures s.locs[i].offset >= 0 && s.locs[i].len >= 0 {
      assert GoodLine(s.packs, s.locs[i]);
    }
  }

  lemma NoKinds(db: Db)
    requires db.locs == map[]
    ensures KindsAgree(db)
  {}

  /** Any snapshot that loads leaves every pack's live bytes exact. */
  lemma {:induction false} LoadKeepsLive(db: Db, s: Lines)
    requires GoodLines(s) && DistinctKeys(s.locs)
    ensures LiveExact(Replaced(db, PacksOf(s.packs), LocsOf(s.locs)))
  {
    hide LinesIn, PacksOf, LocsOf;
    var packs, locs := PacksOf(s.packs), LocsOf(s.locs);
    forall i | 0 <= i < |s.locs| ensures IsLine(locs, s.locs[i]) {
      assert GoodLine(s.packs, s.locs[i]);
      LocsOfAt(s.locs, s.locs[i].key);
    }
    forall k | k in locs ensures locs[k].pack in packs {
      LocsOfAt(s.locs, k);
      var i :| 0 <= i < |s.locs| && s.locs[i].key == k;
      assert GoodLine(s.packs, s.locs[i]);
      PacksOfAt(s.packs, locs[k].pack);
    }
    forall p | p in packs ensures packs[p].live == Located(locs, p) {
      PacksOfAt(s.packs, p);
      var i :| 0 <= i < |s.packs| && s.packs[i].id == p;
      LinesSum(s.locs, locs, p);
      LinesFit(s);
      LineKeys(s.locs, locs, p);
    }
  }

  lemma {:induction false} LineKeys(ls: seq<LocLine>, locs: map<BodyKey, Loc>, p: PackId)
    requires DistinctKeys(ls) && (forall i | 0 <= i < |ls| :: IsLine(locs, ls[i]))
    requires forall i | 0 <= i < |ls| :: ls[i].offset >= 0 && ls[i].len >= 0
    requires locs == LocsOf(ls)
    ensures KeysOf(ls, p) == KeysIn(locs, p)
  {
    hide LocsOf;
    forall k ensures k in KeysOf(ls, p) <==> k in KeysIn(locs, p) {
      LocsOfAt(ls, k);
    }
  }

  datatype Restored = FromSnapshot(day: nat) | FromPacks | Refused(day: nat)

  /**
   `restore_index`: the newest snapshot that reads cleanly, else every pack. A
   snapshot that lists a body twice fails on insert, and nothing is changed.
   */
  method RestoreIndex(store: ArchiveStore, days: seq<Option<Lines>>, listing: seq<Listing>) returns (r: Restored)
    modifies store
    ensures r.FromPacks? ==> forall i | 0 <= i < |days| :: !Loads(days[i])
    ensures !r.FromPacks? ==> r.day < |days| && Loads(days[r.day]) && forall i | 0 <= i < r.day :: !Loads(days[i])
    ensures r.FromPacks? ==> store.View() == ReindexAll(old(store.View()), SortListings(NewerThan(listing, None)))
    ensures r.FromSnapshot? ==>
              DistinctKeys(days[r.day].value.locs) && store.View() == RestoredFrom(old(store.View()), days[r.day].value, listing)
    ensures r.Refused? ==> !DistinctKeys(days[r.day].value.locs) && store.View() == old(store.View())
  {
    hide ReindexAll, SortListings, NewerThan, LinesIn;
    for i := 0 to |days|
      invariant store.View() == old(store.View())
      invariant forall j | 0 <= j < i :: !Loads(days[j])
    {
      if days[i].Some? {
        var s := days[i].value;
        var ok := LoadSnapshot(s);
        if ok {
          if !DistinctKeys(s.locs) {
            return Refused(i);
          }
          var loaded := Replaced(store.View(), PacksOf(s.packs), LocsOf(s.locs));
          store.rows, store.packs, store.locs := loaded.rows, loaded.packs, loaded.locs;
          var failed := Reindex(store, listing, MaxId(s.packs));
          return FromSnapshot(i);
        }
      }
    }
    var failed := Reindex(store, listing, None);
    r := FromPacks;
  }
}
