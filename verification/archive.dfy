/**
 The archive's rows, packs and locations, and the transactions that move bodies
 out of SQLite: archiving a body, recording a verified pack, locating its bodies,
 and freeing local copies. Each is a function on the tables; `ArchiveStore` is the
 tables changed in place, proved against them.
 */
module Archive {
  import opened Wrappers
  import opened Sums
  import opened Pack

  type PackId = nat

  datatype BodyKey = BodyKey(kind: Kind, id: Id)

  /** A `matches` or `timelines` row; the body is a zstd frame, or empty once it is freed. */
  datatype Row = Row(body: Bytes, packed: bool, offloaded: bool)
  datatype PackRow = PackRow(kind: Kind, bytes: nat, bodies: nat, live: int, sha: Digest, created: int)
  datatype Loc = Loc(pack: PackId, offset: nat, len: nat, sha: Digest)

  datatype Db = Db(rows: map<BodyKey, Row>, packs: map<PackId, PackRow>, locs: map<BodyKey, Loc>)

  const RANDOM_BITS: nat := 0x1_0000_0000_0000_0000_0000

  /** The millisecond of a ULID. */
  function TimeOf(id: PackId): int {
    id / RANDOM_BITS
  }

  // ── Transactions ──────────────────────────────────────────────────────────

  /** `put`, with REPACK: the same bytes stay packed, changed ones or a freed body back again must be packed anew. */
  function PutBody(db: Db, k: BodyKey, blob: Bytes): Db {
    var stays := k in db.rows && db.rows[k].body == blob && db.rows[k].packed;
    db.(rows := db.rows[k := Row(blob, stays, false)])
  }

  /** One round of `locate_on`. */
  function LocateOne(db: Db, id: PackId, kind: Kind, e: Entry): Db {
    var k := BodyKey(kind, e.id);
    db.(packs := MovedOut(db, k, id),
        locs := db.locs[k := Loc(id, e.offset, e.len, e.sha)],
        rows := if k in db.rows then db.rows[k := db.rows[k].(packed := true)] else db.rows)
  }

  /** The packs once a body located elsewhere has left its old pack's live bytes. */
  function MovedOut(db: Db, k: BodyKey, id: PackId): map<PackId, PackRow> {
    if k in db.locs && db.locs[k].pack != id && db.locs[k].pack in db.packs then
      var from := db.locs[k].pack;
      db.packs[from := db.packs[from].(live := db.packs[from].live - db.locs[k].len)]
    else db.packs
  }

  /** `locate_on`: every entry in turn. */
  function LocateAll(db: Db, id: PackId, kind: Kind, es: seq<Entry>): Db {
    if es == [] then db
    else LocateOne(LocateAll(db, id, kind, es[..|es| - 1]), id, kind, es[|es| - 1])
  }

  function Lens(es: seq<Entry>): nat {
    if es == [] then 0 else Lens(es[..|es| - 1]) + es[|es| - 1].len
  }

  /** `record_on`: a new `body_packs` row, then its bodies located. The primary key refuses a pack recorded before. */
  function RecordPack(db: Db, id: PackId, p: Pack, now: int): Db {
    if id in db.packs then db else
      var row := PackRow(p.kind, |p.bytes|, |p.entries|, Lens(p.entries), p.sha, now);
      LocateAll(db.(packs := db.packs[id := row]), id, p.kind, p.entries)
  }

  /** `free`, one body: only a packed one with a location. */
  function FreeBody(db: Db, k: BodyKey): Db {
    if CanFree(db, k) then db.(rows := db.rows[k := db.rows[k].(body := [], offloaded := true)]) else db
  }

  predicate CanFree(db: Db, k: BodyKey) {
    k in db.rows && db.rows[k].packed && !db.rows[k].offloaded && k in db.locs
  }

  datatype ObjKey = ObjKey(kind: Kind, pack: PackId)
  type Bucket = map<ObjKey, Bytes>

  /** A located body fetched by range: whatever the object holds there, if its digest agrees. */
  function Fetch(bucket: Bucket, k: BodyKey, l: Loc): Option<Bytes> {
    var at := ObjKey(k.kind, l.pack);
    if at in bucket && l.offset + l.len <= |bucket[at]| then
      var part := bucket[at][l.offset..l.offset + l.len];
      if Sha256(part) == l.sha then Some(part) else None
    else None
  }

  /** `read_bodies`, one body: the local copy, else the one located. */
  function ReadBody(db: Db, bucket: Bucket, k: BodyKey): Option<Bytes> {
    if k !in db.rows then None
    else if db.rows[k].body != [] then Some(db.rows[k].body)
    else if k !in db.locs then None
    else Fetch(bucket, k, db.locs[k])
  }

  // ── What locating does, body by body ──────────────────────────────────────

  function Find(es: seq<Entry>, x: Id): Option<Entry> {
    if es == [] then None
    else if es[|es| - 1].id == x then Some(es[|es| - 1])
    else Find(es[..|es| - 1], x)
  }

  predicate Distinct(es: seq<Entry>) {
    forall i, j | 0 <= i < j < |es| :: es[i].id != es[j].id
  }

  lemma {:induction false} FindAt(es: seq<Entry>, i: nat)
    requires Distinct(es) && i < |es|
    ensures Find(es, es[i].id) == Some(es[i])
  {
    if i < |es| - 1 {
      FindAt(es[..|es| - 1], i);
    }
  }

  lemma {:induction false} FoundIn(es: seq<Entry>, x: Id)
    ensures Find(es, x).Some? ==> Find(es, x).value in es && Find(es, x).value.id == x
    ensures Find(es, x).None? ==> forall i | 0 <= i < |es| :: es[i].id != x
  {
    if es != [] && es[|es| - 1].id != x {
      FoundIn(es[..|es| - 1], x);
    }
  }

  function Listed(kind: Kind, es: seq<Entry>, k: BodyKey): Option<Entry> {
    if k.kind == kind then Find(es, k.id) else None
  }

  lemma {:induction false} LocateAllAt(db: Db, id: PackId, kind: Kind, es: seq<Entry>, k: BodyKey)
    ensures var after, e := LocateAll(db, id, kind, es), Listed(kind, es, k);
            && (k in after.locs <==> e.Some? || k in db.locs)
            && (k in after.locs ==>
                  after.locs[k] == if e.Some? then Loc(id, e.value.offset, e.value.len, e.value.sha) else db.locs[k])
            && (k in after.rows <==> k in db.rows)
            && (k in after.rows ==> after.rows[k] == if e.Some? then db.rows[k].(packed := true) else db.rows[k])
  {
    if es != [] {
      LocateAllAt(db, id, kind, es[..|es| - 1], k);
    }
  }

  // ── Live bytes ────────────────────────────────────────────────────────────

  function KeysIn(locs: map<BodyKey, Loc>, p: PackId): set<BodyKey> {
    set k | k in locs && locs[k].pack == p
  }

  function LenOf(locs: map<BodyKey, Loc>): BodyKey -> int {
    (k: BodyKey) => if k in locs then locs[k].len else 0
  }

  /** The bytes of the bodies located in a pack. */
  ghost function Located(locs: map<BodyKey, Loc>, p: PackId): int {
    Sum(KeysIn(locs, p), LenOf(locs))
  }

  /** Every location is in a pack of the table, and a pack's live bytes are the bodies located in it. */
  ghost predicate LiveExact(db: Db) {
    && (forall k | k in db.locs :: db.locs[k].pack in db.packs)
    && (forall p | p in db.packs :: db.packs[p].live == Located(db.locs, p))
  }

  /** How a pack's located bytes change when one location is written. */
  lemma {:induction false} LocatedUpdate(locs: map<BodyKey, Loc>, k: BodyKey, l: Loc, p: PackId)
    ensures Located(locs[k := l], p)
            == Located(locs, p) - (if k in locs && locs[k].pack == p then locs[k].len else 0)
               + (if l.pack == p then l.len else 0)
  {
    var was, now := KeysIn(locs, p), KeysIn(locs[k := l], p);
    assert was - {k} == now - {k};
    SumSame(was - {k}, LenOf(locs), LenOf(locs[k := l]));
    if k in was {
      SumRemove(was, LenOf(locs), k);
    } else {
      assert was - {k} == was;
    }
    if k in now {
      SumRemove(now, LenOf(locs[k := l]), k);
    } else {
      assert now - {k} == now;
    }
  }

  /** The live bytes of a pack less what is located in it. */
  ghost function Slack(db: Db, p: PackId): int
    requires p in db.packs
  {
    db.packs[p].live - Located(db.locs, p)
  }

  predicate Foreign(db: Db) {
    forall k | k in db.locs :: db.locs[k].pack in db.packs
  }

  /** Locating a body leaves every other pack's slack as it was. */
  lemma {:induction false} LocateOneSlack(db: Db, id: PackId, kind: Kind, e: Entry, p: PackId)
    requires Foreign(db) && id in db.packs && p in db.packs
    ensures Foreign(LocateOne(db, id, kind, e))
    ensures LocateOne(db, id, kind, e).packs.Keys == db.packs.Keys
    ensures LocateOne(db, id, kind, e).packs[p] == db.packs[p].(live := LocateOne(db, id, kind, e).packs[p].live)
    ensures p != id ==> Slack(LocateOne(db, id, kind, e), p) == Slack(db, p)
    ensures p == id ==>
              var k := BodyKey(kind, e.id);
              Slack(LocateOne(db, id, kind, e), p)
              == Slack(db, p) - e.len + (if k in db.locs && db.locs[k].pack == id then db.locs[k].len else 0)
  {
    LocatedUpdate(db.locs, BodyKey(kind, e.id), Loc(id, e.offset, e.len, e.sha), p);
  }

  /** Locating a whole index moves its bytes' accounts with it: out of every pack they leave, into `id`. */
  lemma {:induction false} LocateAllSlack(db: Db, id: PackId, kind: Kind, es: seq<Entry>, p: PackId)
    requires Foreign(db) && id in db.packs && p in db.packs
    ensures Foreign(LocateAll(db, id, kind, es)) && LocateAll(db, id, kind, es).packs.Keys == db.packs.Keys
    ensures LocateAll(db, id, kind, es).packs[p] == db.packs[p].(live := LocateAll(db, id, kind, es).packs[p].live)
    ensures p != id ==> Slack(LocateAll(db, id, kind, es), p) == Slack(db, p)
  {
    hide Slack;
    if es != [] {
      LocateAllSlack(db, id, kind, es[..|es| - 1], p);
      LocateAllSlack(db, id, kind, es[..|es| - 1], id);
      LocateOneSlack(LocateAll(db, id, kind, es[..|es| - 1]), id, kind, es[|es| - 1], p);
    }
  }

  /** Into a pack nothing is located in yet, distinct entries bring all their bytes. */
  lemma {:induction false} NewPackSlack(db: Db, id: PackId, kind: Kind, es: seq<Entry>)
    requires Foreign(db) && id in db.packs && Distinct(es) && forall k | k in db.locs :: db.locs[k].pack != id
    ensures Foreign(LocateAll(db, id, kind, es)) && id in LocateAll(db, id, kind, es).packs
    ensures Slack(LocateAll(db, id, kind, es), id) == Slack(db, id) - Lens(es)
  {
    hide Slack;
    LocateAllSlack(db, id, kind, es, id);
    if es != [] {
      var init, e := es[..|es| - 1], es[|es| - 1];
      var k := BodyKey(kind, e.id);
      NewPackSlack(db, id, kind, init);
      LocateAllSlack(db, id, kind, init, id);
      LocateOneSlack(LocateAll(db, id, kind, init), id, kind, e, id);
      LocateAllAt(db, id, kind, init, k);
      FoundIn(init, e.id);
    }
  }

  /** Recording a pack keeps every pack's live bytes exact. */
  lemma {:induction false} RecordKeepsLive(db: Db, id: PackId, p: Pack, now: int)
    requires LiveExact(db) && Distinct(p.entries)
    ensures LiveExact(RecordPack(db, id, p, now))
  {
    if id !in db.packs {
      var row := PackRow(p.kind, |p.bytes|, |p.entries|, Lens(p.entries), p.sha, now);
      var with := db.(packs := db.packs[id := row]);
      assert KeysIn(db.locs, id) == {};
      NewPackSlack(with, id, p.kind, p.entries);
      var after := LocateAll(with, id, p.kind, p.entries);
      LocateAllSlack(with, id, p.kind, p.entries, id);
      forall q | q in after.packs ensures after.packs[q].live == Located(after.locs, q) {
        LocateAllSlack(with, id, p.kind, p.entries, q);
        assert Slack(after, q) == 0;
      }
    }
  }

  lemma PutAndFreeKeepLive(db: Db, k: BodyKey, blob: Bytes)
    requires LiveExact(db)
    ensures LiveExact(PutBody(db, k, blob)) && LiveExact(FreeBody(db, k))
  {}

  /** Live bytes that are exact are never negative. */
  lemma {:induction false} LiveNotNegative(db: Db, p: PackId)
    requires LiveExact(db) && p in db.packs
    ensures db.packs[p].live >= 0
  {
    SumBounds(KeysIn(db.locs, p), LenOf(db.locs), 0);
  }

  // ── The tables in place ───────────────────────────────────────────────────

  class ArchiveStore {
    var rows: map<BodyKey, Row>
    var packs: map<PackId, PackRow>
    var locs: map<BodyKey, Loc>

    function View(): Db
      reads this
    {
      Db(rows, packs, locs)
    }

    /** `put_stored`: the bytes now waiting to be packed, 0 when the row stays packed. */
    method Put(k: BodyKey, blob: Bytes) returns (waiting: nat)
      modifies this
      ensures View() == PutBody(old(View()), k, blob)
      ensures waiting == if rows[k].packed then 0 else |blob|
    {
      if k in rows {
        rows := rows[k := Row(blob, rows[k].body == blob && rows[k].packed, false)];
      } else {
        rows := rows[k := Row(blob, false, false)];
      }
      waiting := if rows[k].packed then 0 else |blob|;
    }

    /** `locate_on`. */
    method Locate(id: PackId, kind: Kind, es: seq<Entry>)
      modifies this
      ensures View() == LocateAll(old(View()), id, kind, es)
    {
      for i := 0 to |es|
        invariant View() == LocateAll(old(View()), id, kind, es[..i])
      {
        assert es[..i + 1][..i] == es[..i];
        LocateEntry(id, kind, es[i]);
      }
      assert es[..|es|] == es;
    }

    /** One round of `locate_on`. */
    method LocateEntry(id: PackId, kind: Kind, e: Entry)
      modifies this
      ensures View() == LocateOne(old(View()), id, kind, e)
    {
      var k := BodyKey(kind, e.id);
      if k in locs && locs[k].pack != id && locs[k].pack in packs {
        var row := packs[locs[k].pack];
        packs := packs[locs[k].pack := row.(live := row.live - locs[k].len)];
      }
      locs := locs[k := Loc(id, e.offset, e.len, e.sha)];
      if k in rows && !rows[k].packed {
        rows := rows[k := rows[k].(packed := true)];
      }
    }

    /** `record_on`, rolled back when the pack is in the table already. */
    method Record(id: PackId, p: Pack, now: int) returns (ok: bool)
      modifies this
      ensures ok <==> id !in old(packs)
      ensures View() == RecordPack(old(View()), id, p, now)
    {
      if id in packs {
        return false;
      }
      var live := 0;
      for i := 0 to |p.entries|
        invariant live == Lens(p.entries[..i])
      {
        assert p.entries[..i + 1][..i] == p.entries[..i];
        live := live + p.entries[i].len;
      }
      assert p.entries[..|p.entries|] == p.entries;
      packs := packs[id := PackRow(p.kind, |p.bytes|, |p.entries|, live, p.sha, now)];
      Locate(id, p.kind, p.entries);
      ok := true;
    }

    /** `free`: how many of `ks` had their local copy dropped. */
    method Free(ks: seq<BodyKey>) returns (freed: nat)
      modifies this
      ensures View() == FreeAll(old(View()), ks)
      ensures freed == |FreedKeys(old(View()), ks)|
    {
      hide CanFree;
      freed := 0;
      for i := 0 to |ks|
        invariant View() == FreeAll(old(View()), ks[..i])
        invariant freed == |FreedKeys(old(View()), ks[..i])|
      {
        var k := ks[i];
        FreedNext(old(View()), ks, i);
        if CanFree(View(), k) {
          assert FreeBody(View(), k).rows == rows[k := rows[k].(body := [], offloaded := true)];
          rows := rows[k := rows[k].(body := [], offloaded := true)];
          freed := freed + 1;
        }
      }
      assert ks[..|ks|] == ks;
    }

    /** `get`: the local copy, else a range of its pack checked against its digest. */
    method Get(k: BodyKey, bucket: Bucket) returns (body: Option<Bytes>)
      ensures body == ReadBody(View(), bucket, k)
    {
      if k !in rows {
        return None;
      }
      if rows[k].body != [] {
        return Some(rows[k].body);
      }
      if k !in locs {
        return None;
      }
      var l := locs[k];
      var at := ObjKey(k.kind, l.pack);
      if at !in bucket || l.offset + l.len > |bucket[at]| {
        return None;
      }
      var part := bucket[at][l.offset..l.offset + l.len];
      body := if Sha256(part) == l.sha then Some(part) else None;
    }
  }

  function FreeAll(db: Db, ks: seq<BodyKey>): Db {
    if ks == [] then db else FreeBody(FreeAll(db, ks[..|ks| - 1]), ks[|ks| - 1])
  }

  function FreedKeys(db: Db, ks: seq<BodyKey>): set<BodyKey> {
    set k | k in ks && CanFree(db, k)
  }

  lemma {:induction false} FreedOnce(db: Db, ks: seq<BodyKey>, k: BodyKey)
    ensures CanFree(FreeAll(db, ks), k) <==> CanFree(db, k) && k !in ks
    ensures CanFree(FreeAll(db, ks), k) ==> k in FreeAll(db, ks).rows
  {
    if ks != [] {
      var init, last := ks[..|ks| - 1], ks[|ks| - 1];
      FreedOnce(db, init, k);
      assert k in ks <==> k in init || k == last;
    }
  }

  lemma {:induction false} FreedNext(db: Db, ks: seq<BodyKey>, i: nat)
    requires i < |ks|
    ensures FreeAll(db, ks[..i + 1]) == FreeBody(FreeAll(db, ks[..i]), ks[i])
    ensures CanFree(FreeAll(db, ks[..i]), ks[i]) ==> ks[i] in FreeAll(db, ks[..i]).rows
    ensures |FreedKeys(db, ks[..i + 1])|
            == |FreedKeys(db, ks[..i])| + if CanFree(FreeAll(db, ks[..i]), ks[i]) then 1 else 0
  {
    var init := ks[..i];
    assert ks[..i + 1][..i] == init;
    FreedOnce(db, init, ks[i]);
    assert forall k :: k in ks[..i + 1] <==> k in init || k == ks[i];
    if CanFree(FreeAll(db, init), ks[i]) {
      assert FreedKeys(db, ks[..i + 1]) == FreedKeys(db, init) + {ks[i]};
    } else {
      assert FreedKeys(db, ks[..i + 1]) == FreedKeys(db, init);
    }
  }
}
