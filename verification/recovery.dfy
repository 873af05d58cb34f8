/**
 Rebuilding the map of where every packed body is from the packs themselves:
 each pack's own index located in id order. What it gives, that it can be run
 again, and when it gives back the map the archive had.
 */
module Recovery {
  import opened Wrappers
  import opened Sums
  import opened Pack
  import opened Archive

  /** What `read_pack` reads of a pack object. */
  datatype File = File(kind: Kind, size: nat, sha: Digest, entries: seq<Entry>)

  /** A pack found by listing the bucket; `None` when it could not be read. */
  datatype Listing = Listing(id: PackId, file: Option<File>)

  function RowOf(id: PackId, f: File): PackRow {
    PackRow(f.kind, f.size, |f.entries|, Lens(f.entries), f.sha, TimeOf(id))
  }

  /** Its `body_packs` row, if it is missing. */
  function WithPack(db: Db, id: PackId, f: File): Db {
    if id in db.packs then db else db.(packs := db.packs[id := RowOf(id, f)])
  }

  /** A pack's live bytes set to what is located in it. */
  ghost function Relive(db: Db, id: PackId): Db {
    if id in db.packs then db.(packs := db.packs[id := db.packs[id].(live := Located(db.locs, id))]) else db
  }

  /** One pack of a reindex, in one transaction. */
  ghost function ReindexOne(db: Db, id: PackId, f: File): Db {
    Relive(LocateAll(WithPack(db, id, f), id, f.kind, f.entries), id)
  }

  /** A reindex of packs in the order given; one that cannot be read is passed over. */
  ghost function ReindexAll(db: Db, ls: seq<Listing>): Db {
    if ls == [] then db
    else
      var before, last := ReindexAll(db, ls[..|ls| - 1]), ls[|ls| - 1];
      if last.file.None? then before else ReindexOne(before, last.id, last.file.value)
  }

  // ── Order ─────────────────────────────────────────────────────────────────

  predicate InOrder(ls: seq<Listing>) {
    forall i, j | 0 <= i < j < |ls| :: ls[i].id < ls[j].id
  }

  predicate Ordered(ls: seq<Listing>) {
    forall i, j | 0 <= i < j < |ls| :: ls[i].id <= ls[j].id
  }

  function InsertListing(l: Listing, ls: seq<Listing>): (out: seq<Listing>)
    requires Ordered(ls)
    ensures Ordered(out) && multiset(out) == multiset(ls) + multiset{l}
  {
    if ls == [] || l.id < ls[0].id then
      assert multiset([l] + ls) == multiset(ls) + multiset{l};
      [l] + ls
    else
      var rest := InsertListing(l, ls[1..]);
      InsertAfterHead(l, ls, rest);
      [ls[0]] + rest
  }

  lemma {:induction false} InsertAfterHead(l: Listing, ls: seq<Listing>, rest: seq<Listing>)
    requires ls != [] && ls[0].id <= l.id && Ordered(ls) && Ordered(rest)
    requires multiset(rest) == multiset(ls[1..]) + multiset{l}
    ensures Ordered([ls[0]] + rest) && multiset([ls[0]] + rest) == multiset(ls) + multiset{l}
  {
    assert ls == [ls[0]] + ls[1..];
    forall y | y in rest ensures ls[0].id <= y.id {
      assert y in multiset(rest);
    }
  }

  function SortListings(ls: seq<Listing>): (out: seq<Listing>)
    ensures Ordered(out) && multiset(out) == multiset(ls)
  {
    if ls == [] then []
    else
      assert ls == [ls[0]] + ls[1..];
      InsertListing(ls[0], SortListings(ls[1..]))
  }

  /** The packs after `since`. */
  function NewerThan(ls: seq<Listing>, since: Option<PackId>): seq<Listing> {
    if ls == [] then []
    else
      var rest := NewerThan(ls[1..], since);
      if since.Some? && ls[0].id <= since.value then rest else [ls[0]] + rest
  }

  // ── What a reindex gives ──────────────────────────────────────────────────

  /** Whether a listing lists a body, and where. */
  function Lists(l: Listing, k: BodyKey): Option<Loc> {
    if l.file.None? then None
    else
      var e := Listed(l.file.value.kind, l.file.value.entries, k);
      if e.Some? then Some(Loc(l.id, e.value.offset, e.value.len, e.value.sha)) else None
  }

  /** The last listing of a body. */
  function LastLoc(ls: seq<Listing>, k: BodyKey): Option<Loc> {
    if ls == [] then None
    else if Lists(ls[|ls| - 1], k).Some? then Lists(ls[|ls| - 1], k)
    else LastLoc(ls[..|ls| - 1], k)
  }

  lemma {:induction false} ReindexOneAt(db: Db, id: PackId, f: File, k: BodyKey)
    ensures var after, l := ReindexOne(db, id, f), Lists(Listing(id, Some(f)), k);
            && (k in after.locs <==> l.Some? || k in db.locs)
            && (k in after.locs ==> after.locs[k] == if l.Some? then l.value else db.locs[k])
            && (k in after.rows <==> k in db.rows)
            && (k in after.rows ==> after.rows[k] == if l.Some? then db.rows[k].(packed := true) else db.rows[k])
  {
    hide LocateAll, Find, Located;
    LocateAllAt(WithPack(db, id, f), id, f.kind, f.entries, k);
  }

  /** Each body ends where the last pack that lists it says, its row marked packed; the others stay. */
  lemma {:induction false} ReindexAllAt(db: Db, ls: seq<Listing>, k: BodyKey)
    ensures var after, l := ReindexAll(db, ls), LastLoc(ls, k);
            && (k in after.locs <==> l.Some? || k in db.locs)
            && (k in after.locs ==> after.locs[k] == if l.Some? then l.value else db.locs[k])
            && (k in after.rows <==> k in db.rows)
            && (k in after.rows ==> after.rows[k] == if l.Some? then db.rows[k].(packed := true) else db.rows[k])
  {
    hide ReindexOne, Lists;
    if ls != [] {
      ReindexAllAt(db, ls[..|ls| - 1], k);
      var last := ls[|ls| - 1];
      if last.file.Some? {
        ReindexOneAt(ReindexAll(db, ls[..|ls| - 1]), last.id, last.file.value, k);
      } else {
        UnreadListsNothing(last, k);
      }
    }
  }

  lemma UnreadListsNothing(l: Listing, k: BodyKey)
    requires l.file.None?
    ensures Lists(l, k).None?
  {}

  /** In id order the last listing of a body is the greatest pack that lists it. */
  lemma {:induction false} GreatestListing(ls: seq<Listing>, k: BodyKey)
    requires InOrder(ls)
    ensures LastLoc(ls, k).Some? <==> exists i | 0 <= i < |ls| :: Lists(ls[i], k).Some?
    ensures forall i | 0 <= i < |ls| && Lists(ls[i], k).Some? :: LastLoc(ls, k).Some? && ls[i].id <= LastLoc(ls, k).value.pack
    ensures LastLoc(ls, k).Some? ==> exists i | 0 <= i < |ls| :: LastLoc(ls, k) == Lists(ls[i], k)
  {
    if ls != [] {
      var init := ls[..|ls| - 1];
      GreatestListing(init, k);
      assert forall i | 0 <= i < |init| :: init[i] == ls[i];
      if Lists(ls[|ls| - 1], k).None? && LastLoc(init, k).Some? {
        var i :| 0 <= i < |init| && LastLoc(init, k) == Lists(init[i], k);
        assert Lists(ls[i], k).Some?;
      }
    }
  }

  // ── Live bytes ────────────────────────────────────────────────────────────

  lemma {:induction false} ReindexOneKeys(db: Db, id: PackId, f: File)
    requires LiveExact(db)
    ensures ReindexOne(db, id, f).packs.Keys == db.packs.Keys + {id} && Foreign(ReindexOne(db, id, f))
  {
    hide LocateAll, Located;
    LocateAllSlack(WithPack(db, id, f), id, f.kind, f.entries, id);
  }

  lemma {:induction false} ReindexOnePack(db: Db, id: PackId, f: File, p: PackId)
    requires LiveExact(db) && (p in db.packs || p == id)
    ensures p in ReindexOne(db, id, f).packs
    ensures ReindexOne(db, id, f).packs[p]
            == (if p in db.packs then db.packs[p] else RowOf(id, f)).(live := Located(ReindexOne(db, id, f).locs, p))
  {
    hide LocateAll, Located;
    var with := WithPack(db, id, f);
    LocateAllSlack(with, id, f.kind, f.entries, id);
    LocateAllSlack(with, id, f.kind, f.entries, p);
    if p != id {
      assert Slack(with, p) == 0;
    }
  }

  /** Whatever a reindex finds, every pack's live bytes come out exact, even of a pack that lists a body twice. */
  lemma {:induction false} ReindexKeepsLive(db: Db, id: PackId, f: File)
    requires LiveExact(db)
    ensures LiveExact(ReindexOne(db, id, f))
  {
    hide ReindexOne, Located;
    ReindexOneKeys(db, id, f);
    forall p | p in ReindexOne(db, id, f).packs
      ensures ReindexOne(db, id, f).packs[p].live == Located(ReindexOne(db, id, f).locs, p)
    {
      ReindexOnePack(db, id, f, p);
    }
  }

  /** The row a reindexed pack has but for its live bytes: the one it had, else its own. */
  function BaseRow(packs: map<PackId, PackRow>, ls: seq<Listing>, p: PackId): Option<PackRow> {
    if ls == [] then (if p in packs then Some(packs[p]) else None)
    else
      var before, last := BaseRow(packs, ls[..|ls| - 1], p), ls[|ls| - 1];
      if before.None? && last.id == p && last.file.Some? then Some(RowOf(p, last.file.value)) else before
  }

  lemma {:induction false} ReindexAllPacks(db: Db, ls: seq<Listing>, p: PackId)
    requires LiveExact(db)
    ensures LiveExact(ReindexAll(db, ls))
    ensures p in ReindexAll(db, ls).packs <==> BaseRow(db.packs, ls, p).Some?
    ensures p in ReindexAll(db, ls).packs ==>
              ReindexAll(db, ls).packs[p]
              == BaseRow(db.packs, ls, p).value.(live := Located(ReindexAll(db, ls).locs, p))
  {
    hide Located, ReindexOne, LiveExact;
    if ls == [] {
      LiveAt(db, p);
    } else {
      var last := ls[|ls| - 1];
      ReindexAllPacks(db, ls[..|ls| - 1], p);
      if last.file.Some? {
        var before := ReindexAll(db, ls[..|ls| - 1]);
        ReindexKeepsLive(before, last.id, last.file.value);
        ReindexOneKeys(before, last.id, last.file.value);
        if p in before.packs || p == last.id {
          ReindexOnePack(before, last.id, last.file.value, p);
        }
      }
    }
  }

  lemma LiveAt(db: Db, p: PackId)
    requires LiveExact(db)
    ensures p in db.packs ==> db.packs[p] == db.packs[p].(live := Located(db.locs, p))
  {}

  /** Two archives with the same rows, locations and exact packs but for live bytes are the same. */
  lemma {:induction false} SameArchive(a: Db, b: Db)
    requires a.locs == b.locs && a.rows == b.rows && a.packs.Keys == b.packs.Keys
    requires forall p | p in a.packs :: a.packs[p].(live := 0) == b.packs[p].(live := 0)
    requires LiveExact(a) && LiveExact(b)
    ensures a == b
  {
    forall p | p in a.packs ensures a.packs[p] == b.packs[p] {
      assert a.packs[p].live == b.packs[p].live;
      assert a.packs[p] == a.packs[p].(live := 0).(live := a.packs[p].live);
    }
  }

  lemma {:induction false} BaseKept(packs: map<PackId, PackRow>, ls: seq<Listing>, p: PackId)
    requires p in packs
    ensures BaseRow(packs, ls, p) == Some(packs[p])
  {
    if ls != [] {
      BaseKept(packs, ls[..|ls| - 1], p);
    }
  }

  lemma {:induction false} BaseAbsent(packs: map<PackId, PackRow>, more: map<PackId, PackRow>, ls: seq<Listing>, p: PackId)
    requires BaseRow(packs, ls, p).None? && p !in more
    ensures BaseRow(more, ls, p).None?
  {
    if ls != [] {
      BaseAbsent(packs, more, ls[..|ls| - 1], p);
    }
  }

  /** Reindexing again changes nothing. */
  lemma {:induction false} ReindexIdempotent(db: Db, ls: seq<Listing>)
    requires LiveExact(db)
    ensures ReindexAll(ReindexAll(db, ls), ls) == ReindexAll(db, ls)
  {
    hide Located, LiveExact, ReindexAll, BaseRow, LastLoc;
    var once := ReindexAll(db, ls);
    var twice := ReindexAll(once, ls);
    ReindexAllPacks(db, ls, 0);
    ReindexAllPacks(once, ls, 0);
    forall k
      ensures (k in twice.locs <==> k in once.locs) && (k in once.locs ==> twice.locs[k] == once.locs[k])
      ensures (k in twice.rows <==> k in once.rows) && (k in once.rows ==> twice.rows[k] == once.rows[k])
    {
      ReindexAllAt(db, ls, k);
      ReindexAllAt(once, ls, k);
    }
    assert twice.locs == once.locs && twice.rows == once.rows;
    forall p ensures p in twice.packs <==> p in once.packs
             ensures p in once.packs ==> twice.packs[p].(live := 0) == once.packs[p].(live := 0)
    {
      ReindexAllPacks(db, ls, p);
      ReindexAllPacks(once, ls, p);
      if p in once.packs {
        BaseKept(once.packs, ls, p);
      } else {
        BaseAbsent(db.packs, once.packs, ls, p);
      }
    }
    SameArchive(twice, once);
  }

  // ── Against the archive's own map ─────────────────────────────────────────

  /** A pack recorded, with its id. */
  datatype PackRecord = PackRecord(id: PackId, pack: Pack)

  function FileOf(p: Pack): File {
    File(p.kind, |p.bytes|, p.sha, p.entries)
  }

  function ListingOf(r: PackRecord): Listing {
    Listing(r.id, Some(FileOf(r.pack)))
  }

  function Listings(rs: seq<PackRecord>): (ls: seq<Listing>)
    ensures |ls| == |rs| && forall i | 0 <= i < |rs| :: ls[i] == ListingOf(rs[i])
  {
    seq(|rs|, i requires 0 <= i < |rs| => ListingOf(rs[i]))
  }

  /** The packs recorded one after another, each at its ULID's time. */
  function RecordAll(db: Db, rs: seq<PackRecord>): Db {
    if rs == [] then db
    else
      var last := rs[|rs| - 1];
      RecordPack(RecordAll(db, rs[..|rs| - 1]), last.id, last.pack, TimeOf(last.id))
  }

  predicate Recordable(db: Db, rs: seq<PackRecord>) {
    && (forall i, j | 0 <= i < j < |rs| :: rs[i].id != rs[j].id)
    && (forall i | 0 <= i < |rs| :: rs[i].id !in db.packs && Distinct(rs[i].pack.entries))
  }

  /** Recording a new pack and reindexing it are the same. */
  lemma {:induction false} RecordIsReindex(db: Db, id: PackId, p: Pack)
    requires LiveExact(db) && id !in db.packs && Distinct(p.entries)
    ensures RecordPack(db, id, p, TimeOf(id)) == ReindexOne(db, id, FileOf(p))
    ensures LiveExact(RecordPack(db, id, p, TimeOf(id)))
    ensures RecordPack(db, id, p, TimeOf(id)).packs.Keys == db.packs.Keys + {id}
  {
    hide LocateAll, Located;
    RecordKeepsLive(db, id, p, TimeOf(id));
    ReindexOneKeys(db, id, FileOf(p));
    var with := WithPack(db, id, FileOf(p));
    LocateAllSlack(with, id, p.kind, p.entries, id);
    var recorded := RecordPack(db, id, p, TimeOf(id));
    assert recorded == LocateAll(with, id, p.kind, p.entries);
    assert recorded.packs[id].live == Located(recorded.locs, id);
  }

  lemma {:induction false} RecordedIds(db: Db, rs: seq<PackRecord>, p: PackId)
    requires LiveExact(db) && Recordable(db, rs)
    ensures LiveExact(RecordAll(db, rs))
    ensures p in RecordAll(db, rs).packs <==> p in db.packs || exists i | 0 <= i < |rs| :: rs[i].id == p
  {
    hide LiveExact, RecordPack;
    if rs != [] {
      var init, last := rs[..|rs| - 1], rs[|rs| - 1];
      RecordedIds(db, init, p);
      RecordedIds(db, init, last.id);
      RecordIsReindex(RecordAll(db, init), last.id, last.pack);
      assert rs == init + [last];
    }
  }

  /** So the archive's map is a reindex of its packs in the order they were recorded. */
  lemma {:induction false} RecordsAreReindex(db: Db, rs: seq<PackRecord>)
    requires LiveExact(db) && Recordable(db, rs)
    ensures RecordAll(db, rs) == ReindexAll(db, Listings(rs))
  {
    hide LiveExact, RecordPack, ReindexOne;
    if rs != [] {
      var init, last := rs[..|rs| - 1], rs[|rs| - 1];
      RecordsAreReindex(db, init);
      RecordedIds(db, init, last.id);
      assert Listings(rs)[..|rs| - 1] == Listings(init);
      RecordIsReindex(RecordAll(db, init), last.id, last.pack);
    }
  }

  // ── Restoring ─────────────────────────────────────────────────────────────

  lemma {:induction false} LocateIgnoresRows(a: Db, b: Db, id: PackId, kind: Kind, es: seq<Entry>)
    requires a.packs == b.packs && a.locs == b.locs
    ensures LocateAll(a, id, kind, es).packs == LocateAll(b, id, kind, es).packs
    ensures LocateAll(a, id, kind, es).locs == LocateAll(b, id, kind, es).locs
  {
    if es != [] {
      LocateIgnoresRows(a, b, id, kind, es[..|es| - 1]);
    }
  }

  /** The map a reindex builds does not depend on the archive's rows. */
  lemma {:induction false} ReindexIgnoresRows(a: Db, b: Db, ls: seq<Listing>)
    requires a.packs == b.packs && a.locs == b.locs
    ensures ReindexAll(a, ls).packs == ReindexAll(b, ls).packs && ReindexAll(a, ls).locs == ReindexAll(b, ls).locs
  {
    hide LocateAll, Located;
    if ls != [] {
      var init, last := ls[..|ls| - 1], ls[|ls| - 1];
      ReindexIgnoresRows(a, b, init);
      if last.file.Some? {
        var f := last.file.value;
        LocateIgnoresRows(WithPack(ReindexAll(a, init), last.id, f), WithPack(ReindexAll(b, init), last.id, f),
                          last.id, f.kind, f.entries);
      }
    }
  }

  lemma {:induction false} ReindexSplit(db: Db, a: seq<Listing>, b: seq<Listing>)
    ensures ReindexAll(db, a + b) == ReindexAll(ReindexAll(db, a), b)
    decreases |b|
  {
    if b == [] {
      assert a + b == a;
    } else {
      assert (a + b)[..|a + b| - 1] == a + b[..|b| - 1];
      ReindexSplit(db, a, b[..|b| - 1]);
    }
  }

  predicate Newer(l: Listing, since: Option<PackId>) {
    since.Some? ==> l.id > since.value
  }

  lemma {:induction false} NewerMembers(ls: seq<Listing>, since: Option<PackId>, l: Listing)
    ensures multiset(NewerThan(ls, since))[l] == if Newer(l, since) then multiset(ls)[l] else 0
  {
    if ls != [] {
      NewerMembers(ls[1..], since, l);
      assert ls == [ls[0]] + ls[1..];
    }
  }

  // ── Packs recorded out of order ───────────────────────────────────────────

  predicate LastLists(rs: seq<PackRecord>, k: BodyKey, i: nat)
    requires i < |rs|
  {
    Lists(ListingOf(rs[i]), k).Some? && forall j | i < j < |rs| :: Lists(ListingOf(rs[j]), k).None?
  }

  /** The pack a body was last recorded in has the greatest id of those that list it. */
  ghost predicate NewestLast(rs: seq<PackRecord>) {
    forall k :: NewestLastOf(rs, k)
  }

  predicate NewestLastOf(rs: seq<PackRecord>, k: BodyKey) {
    forall i, j | 0 <= i < |rs| && 0 <= j < |rs| && LastLists(rs, k, i) && Lists(ListingOf(rs[j]), k).Some? ::
      rs[j].id <= rs[i].id
  }

  lemma {:induction false} LastIsLast(ls: seq<Listing>, k: BodyKey, i: nat)
    requires i < |ls| && Lists(ls[i], k).Some? && forall j | i < j < |ls| :: Lists(ls[j], k).None?
    ensures LastLoc(ls, k) == Lists(ls[i], k)
  {
    if i < |ls| - 1 {
      LastIsLast(ls[..|ls| - 1], k, i);
    }
  }

  lemma {:induction false} SomeLast(rs: seq<PackRecord>, k: BodyKey, n: nat) returns (i: nat)
    requires n <= |rs| && exists j | 0 <= j < n :: Lists(ListingOf(rs[j]), k).Some?
    requires forall j | n <= j < |rs| :: Lists(ListingOf(rs[j]), k).None?
    ensures i < |rs| && LastLists(rs, k, i)
    decreases n
  {
    if Lists(ListingOf(rs[n - 1]), k).Some? {
      i := n - 1;
    } else {
      i := SomeLast(rs, k, n - 1);
    }
  }

  lemma {:induction false} NoneListed(ls: seq<Listing>, k: BodyKey)
    requires forall j | 0 <= j < |ls| :: Lists(ls[j], k).None?
    ensures LastLoc(ls, k).None?
  {
    if ls != [] {
      NoneListed(ls[..|ls| - 1], k);
    }
  }

  predicate DistinctIds(ls: seq<Listing>) {
    forall i, j | 0 <= i < j < |ls| :: ls[i].id != ls[j].id
  }

  lemma {:induction false} NotTwice(ls: seq<Listing>, rec: seq<Listing>, i: nat, j: nat)
    requires multiset(ls) == multiset(rec) && DistinctIds(rec) && i < j < |ls|
    ensures ls[i].id != ls[j].id
  {
    assert ls[i] in multiset(ls) && ls[j] in multiset(ls);
    var a :| 0 <= a < |rec| && rec[a] == ls[i];
    var b :| 0 <= b < |rec| && rec[b] == ls[j];
    OnlyOnce(rec, a);
    AtLeastTwice(ls, i, j);
    assert a != b;
  }

  lemma {:induction false} AtLeastTwice(ls: seq<Listing>, i: nat, j: nat)
    requires i < j < |ls|
    ensures ls[i] == ls[j] ==> multiset(ls)[ls[i]] >= 2
  {
    assert ls == ls[..i] + [ls[i]] + ls[i + 1..j] + [ls[j]] + ls[j + 1..];
  }

  lemma {:induction false} OnlyOnce(ls: seq<Listing>, a: nat)
    requires a < |ls| && forall i, j | 0 <= i < j < |ls| :: ls[i] != ls[j]
    ensures multiset(ls)[ls[a]] == 1
  {
    assert ls == ls[..a] + [ls[a]] + ls[a + 1..];
    assert ls[a] !in ls[..a] && ls[a] !in ls[a + 1..];
  }

  /** The listings are those of the packs recorded. */
  ghost predicate AreListings(ls: seq<Listing>, rs: seq<PackRecord>) {
    forall l :: l in ls <==> exists j | 0 <= j < |rs| :: ListingOf(rs[j]) == l
  }

  /** One body's location after reindexing in id order is the one recorded, just when the packs agree. */
  lemma {:induction false} SameLocation(rs: seq<PackRecord>, ls: seq<Listing>, k: BodyKey, i: nat)
    requires InOrder(ls) && AreListings(ls, rs)
    requires forall i, j | 0 <= i < j < |rs| :: rs[i].id != rs[j].id
    requires i < |rs| && LastLists(rs, k, i)
    ensures LastLoc(Listings(rs), k) == Lists(ListingOf(rs[i]), k)
    ensures LastLoc(ls, k).Some?
    ensures LastLoc(ls, k) == LastLoc(Listings(rs), k) <==>
            forall j | 0 <= j < |rs| && Lists(ListingOf(rs[j]), k).Some? :: rs[j].id <= rs[i].id
  {
    hide Lists, LastLoc, ListingOf;
    var rec := Listings(rs);
    LastIsLast(rec, k, i);
    GreatestListing(ls, k);
    assert ListingOf(rs[i]) in ls;
    var at :| 0 <= at < |ls| && ls[at] == ListingOf(rs[i]);
    assert Lists(ls[at], k).Some?;
    var top :| 0 <= top < |ls| && LastLoc(ls, k) == Lists(ls[top], k);
    assert ls[top] in ls;
    var g :| 0 <= g < |rs| && ListingOf(rs[g]) == ls[top];
    ListedPack(ListingOf(rs[i]), k);
    ListedPack(ListingOf(rs[g]), k);
    ListingIds(rs[i]);
    ListingIds(rs[g]);
    forall j | 0 <= j < |rs| && Lists(ListingOf(rs[j]), k).Some? ensures rs[j].id <= rs[g].id {
      assert ListingOf(rs[j]) in ls;
      var b :| 0 <= b < |ls| && ls[b] == ListingOf(rs[j]);
      ListingIds(rs[j]);
    }
    if rs[g].id == rs[i].id {
      assert g == i;
    }
  }

  lemma ListedPack(l: Listing, k: BodyKey)
    ensures Lists(l, k).Some? ==> Lists(l, k).value.pack == l.id
  {}

  lemma ListingIds(r: PackRecord)
    ensures ListingOf(r).id == r.id
  {}

  lemma {:induction false} BodyAgrees(rs: seq<PackRecord>, ls: seq<Listing>, k: BodyKey)
    requires InOrder(ls) && AreListings(ls, rs)
    requires forall i, j | 0 <= i < j < |rs| :: rs[i].id != rs[j].id
    ensures LastLoc(ls, k).Some? <==> LastLoc(Listings(rs), k).Some?
    ensures LastLoc(ls, k) == LastLoc(Listings(rs), k) <==> NewestLastOf(rs, k)
  {
    hide Lists, LastLoc, ListingOf, LastLists;
    if exists j | 0 <= j < |rs| :: Lists(ListingOf(rs[j]), k).Some? {
      var i := SomeLast(rs, k, |rs|);
      SameLocation(rs, ls, k, i);
      OneLast(rs, k, i);
    } else {
      NoneListed(Listings(rs), k);
      forall a | 0 <= a < |ls| ensures Lists(ls[a], k).None? {
        assert ls[a] in ls;
      }
      NoneListed(ls, k);
    }
  }

  lemma OneLast(rs: seq<PackRecord>, k: BodyKey, i: nat)
    requires i < |rs| && LastLists(rs, k, i)
    ensures forall j | 0 <= j < |rs| && LastLists(rs, k, j) :: j == i
  {}

  /** Reindexed in id order or in the order recorded, the locations agree just when each body's last pack is its greatest. */
  lemma {:induction false} LocsMatchIff(base: Db, rs: seq<PackRecord>, ls: seq<Listing>)
    requires InOrder(ls) && AreListings(ls, rs) && forall i, j | 0 <= i < j < |rs| :: rs[i].id != rs[j].id
    ensures ReindexAll(base, ls).locs == ReindexAll(base, Listings(rs)).locs <==> NewestLast(rs)
  {
    hide ReindexAll, LastLoc, NewestLastOf, AreListings;
    var a, b := ReindexAll(base, ls).locs, ReindexAll(base, Listings(rs)).locs;
    forall k
      ensures k in a <==> k in b
      ensures (k in a ==> a[k] == b[k]) <==> NewestLastOf(rs, k)
    {
      BodyAgrees(rs, ls, k);
      ReindexAllAt(base, ls, k);
      ReindexAllAt(base, Listings(rs), k);
    }
    assert a == b <==> forall k | k in a :: a[k] == b[k];
  }

  // ── What a restore reads ──────────────────────────────────────────────────

  /** The listings that could be read. */
  function Readable(ls: seq<Listing>): seq<Listing> {
    if ls == [] then []
    else Readable(ls[..|ls| - 1]) + if ls[|ls| - 1].file.Some? then [ls[|ls| - 1]] else []
  }

  lemma {:induction false} ReadableSame(db: Db, ls: seq<Listing>)
    ensures ReindexAll(db, Readable(ls)) == ReindexAll(db, ls)
  {
    hide ReindexOne;
    if ls != [] {
      var init, last := ls[..|ls| - 1], ls[|ls| - 1];
      ReadableSame(db, init);
      if last.file.Some? {
        assert (Readable(init) + [last])[..|Readable(init)|] == Readable(init);
      } else {
        assert Readable(ls) == Readable(init);
      }
    }
  }

  lemma {:induction false} ReadableMember(ls: seq<Listing>, l: Listing)
    ensures l in Readable(ls) <==> l in ls && l.file.Some?
  {
    if ls != [] {
      ReadableMember(ls[..|ls| - 1], l);
      assert ls == ls[..|ls| - 1] + [ls[|ls| - 1]];
    }
  }

  lemma {:induction false} ReadableInOrder(ls: seq<Listing>)
    requires InOrder(ls)
    ensures InOrder(Readable(ls))
  {
    if ls != [] {
      var init, last := ls[..|ls| - 1], ls[|ls| - 1];
      ReadableInOrder(init);
      forall l | l in Readable(init) ensures l.id < last.id {
        ReadableMember(init, l);
        var i :| 0 <= i < |init| && init[i] == l;
        assert ls[i].id < ls[|ls| - 1].id;
      }
    }
  }

  lemma {:induction false} NewerDistinct(ls: seq<Listing>, since: Option<PackId>)
    requires DistinctIds(ls)
    ensures DistinctIds(NewerThan(ls, since))
  {
    if ls != [] {
      NewerDistinct(ls[1..], since);
      forall l | l in NewerThan(ls[1..], since) ensures l.id != ls[0].id {
        NewerMembers(ls[1..], since, l);
        assert l in multiset(NewerThan(ls[1..], since));
        var i :| 0 <= i < |ls[1..]| && ls[1..][i] == l;
        assert ls[i + 1] == l;
      }
    }
  }

  /** The readable packs after `since`, in the order a reindex takes them. */
  function ToReindex(listing: seq<Listing>, since: Option<PackId>): seq<Listing> {
    Readable(SortListings(NewerThan(listing, since)))
  }

  lemma {:induction false} ToReindexIs(listing: seq<Listing>, since: Option<PackId>)
    requires DistinctIds(listing)
    ensures InOrder(ToReindex(listing, since))
    ensures forall l :: l in ToReindex(listing, since) <==> l in listing && l.file.Some? && Newer(l, since)
  {
    hide SortListings, NewerThan, Readable;
    var newer := NewerThan(listing, since);
    var sorted := SortListings(newer);
    NewerDistinct(listing, since);
    forall i, j | 0 <= i < j < |sorted| ensures sorted[i].id < sorted[j].id {
      NotTwice(sorted, newer, i, j);
    }
    ReadableInOrder(sorted);
    forall l ensures l in ToReindex(listing, since) <==> l in listing && l.file.Some? && Newer(l, since) {
      ReadableMember(sorted, l);
      NewerMembers(listing, since, l);
      assert l in sorted <==> l in multiset(sorted);
      assert l in listing <==> l in multiset(listing);
    }
  }

  // ── Packs by id ───────────────────────────────────────────────────────────

  lemma {:induction false} BaseSome(packs: map<PackId, PackRow>, ls: seq<Listing>, p: PackId)
    ensures BaseRow(packs, ls, p).Some? <==>
            p in packs || exists i | 0 <= i < |ls| :: ls[i].id == p && ls[i].file.Some?
  {
    if ls != [] {
      var init := ls[..|ls| - 1];
      BaseSome(packs, init, p);
      assert forall i | 0 <= i < |init| :: init[i] == ls[i];
      if i :| 0 <= i < |ls| && ls[i].id == p && ls[i].file.Some? {
        assert i == |ls| - 1 || (init[i].id == p && init[i].file.Some?);
      }
    }
  }

  /** Of distinct packs, a new one's row is its own. */
  lemma {:induction false} BaseOwn(packs: map<PackId, PackRow>, ls: seq<Listing>, i: nat)
    requires DistinctIds(ls) && i < |ls| && ls[i].file.Some? && ls[i].id !in packs
    ensures BaseRow(packs, ls, ls[i].id) == Some(RowOf(ls[i].id, ls[i].file.value))
  {
    var init := ls[..|ls| - 1];
    if i < |ls| - 1 {
      BaseOwn(packs, init, i);
    } else {
      BaseSome(packs, init, ls[i].id);
      assert forall j | 0 <= j < |init| :: init[j] == ls[j];
    }
  }

  lemma DistinctOf(ls: seq<Listing>)
    requires InOrder(ls)
    ensures DistinctIds(ls)
  {}

  /** The same packs reindexed in two orders have the same rows, once their locations agree. */
  lemma {:induction false} PacksMatch(base: Db, rs: seq<PackRecord>, ls: seq<Listing>)
    requires LiveExact(base) && InOrder(ls) && AreListings(ls, rs)
    requires forall i, j | 0 <= i < j < |rs| :: rs[i].id != rs[j].id
    requires ReindexAll(base, ls).locs == ReindexAll(base, Listings(rs)).locs
    ensures ReindexAll(base, ls).packs == ReindexAll(base, Listings(rs)).packs
  {
    hide ReindexAll, LiveExact, Located, BaseRow, AreListings;
    var a, b := ReindexAll(base, ls), ReindexAll(base, Listings(rs));
    forall p ensures (p in a.packs <==> p in b.packs) && (p in a.packs ==> a.packs[p] == b.packs[p]) {
      ReindexAllPacks(base, ls, p);
      ReindexAllPacks(base, Listings(rs), p);
      SameBase(base.packs, rs, ls, p);
    }
  }

  lemma {:induction false} SameBase(packs: map<PackId, PackRow>, rs: seq<PackRecord>, ls: seq<Listing>, p: PackId)
    requires InOrder(ls) && AreListings(ls, rs) && forall i, j | 0 <= i < j < |rs| :: rs[i].id != rs[j].id
    ensures BaseRow(packs, ls, p) == BaseRow(packs, Listings(rs), p)
  {
    hide BaseRow;
    var rec := Listings(rs);
    DistinctOf(ls);
    BaseSome(packs, ls, p);
    BaseSome(packs, rec, p);
    if p in packs {
      BaseKept(packs, ls, p);
      BaseKept(packs, rec, p);
    } else if j :| 0 <= j < |rs| && rs[j].id == p {
      assert rec[j].id == p && ListingOf(rs[j]) in ls;
      var i :| 0 <= i < |ls| && ls[i] == ListingOf(rs[j]);
      BaseOwn(packs, ls, i);
      BaseOwn(packs, rec, j);
    } else {
      forall i | 0 <= i < |ls| ensures ls[i].id != p {
        assert ls[i] in ls;
        var j :| 0 <= j < |rs| && ListingOf(rs[j]) == ls[i];
      }
      assert BaseRow(packs, ls, p).None? && BaseRow(packs, rec, p).None?;
    }
  }

  // ── When a restore gives back the map ─────────────────────────────────────

  /** The greatest id of some packs: the newest a snapshot of them lists. */
  function Newest(rs: seq<PackRecord>): Option<PackId> {
    if rs == [] then None
    else
      var rest := Newest(rs[..|rs| - 1]);
      if rest.Some? && rest.value >= rs[|rs| - 1].id then rest else Some(rs[|rs| - 1].id)
  }

  lemma {:induction false} NewestIsGreatest(rs: seq<PackRecord>)
    ensures Newest(rs).Some? <==> rs != []
    ensures forall i | 0 <= i < |rs| :: Newest(rs).Some? && rs[i].id <= Newest(rs).value
    ensures rs != [] ==> exists i | 0 <= i < |rs| :: rs[i].id == Newest(rs).value
  {
    if rs != [] {
      var init := rs[..|rs| - 1];
      NewestIsGreatest(init);
      assert forall i | 0 <= i < |init| :: init[i] == rs[i];
      if Newest(rs) == Newest(init) && init != [] {
        var i :| 0 <= i < |init| && init[i].id == Newest(init).value;
        assert rs[i].id == Newest(rs).value;
      } else {
        assert rs[|rs| - 1].id == Newest(rs).value;
      }
    }
  }

  /** Every readable pack newer than the snapshot was recorded. */
  ghost predicate NoStrays(rs: seq<PackRecord>, m: nat, listing: seq<Listing>)
    requires m <= |rs|
  {
    forall l | l in listing && l.file.Some? && Newer(l, Newest(rs[..m])) ::
      exists j | 0 <= j < |rs| :: ListingOf(rs[j]) == l
  }

  /** Every pack recorded after the snapshot has a greater id than every pack before it. */
  predicate LaterIsNewer(rs: seq<PackRecord>, m: nat) {
    forall i, j | 0 <= i < m <= j < |rs| :: rs[i].id < rs[j].id
  }

  /** Every pack recorded after the snapshot can still be read, as it was recorded. */
  predicate LaterIsListed(rs: seq<PackRecord>, m: nat, listing: seq<Listing>) {
    forall i | m <= i < |rs| :: ListingOf(rs[i]) in listing
  }

  /** What a restore from a snapshot of the first `m` packs needs to give back the map. */
  ghost predicate Restorable(rs: seq<PackRecord>, m: nat, listing: seq<Listing>)
    requires m <= |rs|
  {
    && LaterIsListed(rs, m, listing) && NoStrays(rs, m, listing)
    && LaterIsNewer(rs, m) && NewestLast(rs[m..])
  }

  /** A pack newer than `since` that was recorded and can be read, reads as it was recorded. */
  predicate ReadsAsRecorded(rs: seq<PackRecord>, since: Option<PackId>, listing: seq<Listing>) {
    forall l, i | l in listing && l.file.Some? && Newer(l, since) && 0 <= i < |rs| && rs[i].id == l.id ::
      l == ListingOf(rs[i])
  }

  /** With later packs newer and no strays, a restore reads exactly the packs recorded since. */
  lemma {:induction false} ReadsTheRest(rs: seq<PackRecord>, m: nat, listing: seq<Listing>)
    requires m <= |rs| && DistinctIds(listing) && LaterIsListed(rs, m, listing)
    requires NoStrays(rs, m, listing) && LaterIsNewer(rs, m)
    ensures AreListings(ToReindex(listing, Newest(rs[..m])), rs[m..])
  {
    hide ToReindex;
    var early, late, since := rs[..m], rs[m..], Newest(rs[..m]);
    var ls := ToReindex(listing, since);
    ToReindexIs(listing, since);
    NewestIsGreatest(early);
    assert forall j | 0 <= j < m :: early[j] == rs[j];
    forall l ensures l in ls <==> exists j | 0 <= j < |late| :: ListingOf(late[j]) == l {
      if l in ls {
        var j :| 0 <= j < |rs| && ListingOf(rs[j]) == l;
        assert j >= m;
        assert late[j - m] == rs[j];
      }
      if j :| 0 <= j < |late| && ListingOf(late[j]) == l {
        assert rs[m + j] == late[j];
        if since.Some? {
          var i :| 0 <= i < |early| && early[i].id == since.value;
          assert rs[i].id < rs[m + j].id;
        }
      }
    }
  }

  /** Where the restored packs are the running ones, later packs are newer and readable and there are no strays. */
  lemma {:induction false} PacksShow(was: Db, rs: seq<PackRecord>, m: nat, listing: seq<Listing>)
    requires LiveExact(was) && was.packs == map[] && m <= |rs| && Recordable(was, rs)
    requires DistinctIds(listing) && ReadsAsRecorded(rs, Newest(rs[..m]), listing)
    requires ReindexAll(RecordAll(was, rs[..m]), ToReindex(listing, Newest(rs[..m]))).packs == RecordAll(was, rs).packs
    ensures LaterIsListed(rs, m, listing) && NoStrays(rs, m, listing) && LaterIsNewer(rs, m)
  {
    hide ReindexAll, RecordAll, LiveExact, ToReindex, BaseRow;
    var early, since := rs[..m], Newest(rs[..m]);
    var snap, ls := RecordAll(was, rs[..m]), ToReindex(listing, Newest(rs[..m]));
    ToReindexIs(listing, since);
    NewestIsGreatest(early);
    RecordedIds(was, early, 0);
    forall l | l in listing && l.file.Some? && Newer(l, since) ensures exists j | 0 <= j < |rs| :: ListingOf(rs[j]) == l {
      var a :| 0 <= a < |ls| && ls[a] == l;
      ReindexAllPacks(snap, ls, l.id);
      BaseSome(snap.packs, ls, l.id);
      RecordedIds(was, rs, l.id);
      var j :| 0 <= j < |rs| && rs[j].id == l.id;
      assert l == ListingOf(rs[j]);
    }
    assert forall x | 0 <= x < m :: early[x] == rs[x];
    forall j | m <= j < |rs| ensures ListingOf(rs[j]) in listing && Newer(ListingOf(rs[j]), since) {
      var p := rs[j].id;
      RecordedIds(was, rs, p);
      RecordedIds(was, early, p);
      ReindexAllPacks(snap, ls, p);
      BaseSome(snap.packs, ls, p);
      var a :| 0 <= a < |ls| && ls[a].id == p && ls[a].file.Some?;
      assert ls[a] in ls;
    }
    forall i, j | 0 <= i < m <= j < |rs| ensures rs[i].id < rs[j].id {
      assert early[i].id <= since.value < ListingOf(rs[j]).id;
    }
  }

  lemma {:induction false} SplitRecords(was: Db, rs: seq<PackRecord>, m: nat)
    requires LiveExact(was) && Recordable(was, rs) && m <= |rs|
    ensures RecordAll(was, rs) == ReindexAll(RecordAll(was, rs[..m]), Listings(rs[m..]))
  {
    hide ReindexAll, RecordAll, LiveExact;
    RecordsAreReindex(was, rs[..m]);
    RecordsAreReindex(was, rs);
    assert Listings(rs) == Listings(rs[..m]) + Listings(rs[m..]);
    ReindexSplit(was, Listings(rs[..m]), Listings(rs[m..]));
  }

  /**
   A snapshot of the first `m` packs, loaded into an archive that has lost its map,
   and the packs after its newest reindexed: this gives back both tables exactly
   when every pack recorded since can be read, no readable stray is newer than the
   snapshot, every pack recorded since has a greater id than all before it, and, of
   those recorded since, each body's last pack is the greatest that lists it. Packs
   before the snapshot may be gone, or read as anything. With no snapshot
   (`m == 0`) every pack is reindexed and the third holds of itself.
   */
  lemma {:induction false} RestoreMatchesIff(
    lost: Db, rows: map<BodyKey, Row>, rs: seq<PackRecord>, m: nat, listing: seq<Listing>)
    requires m <= |rs| && Recordable(Db(rows, map[], map[]), rs)
    requires DistinctIds(listing) && ReadsAsRecorded(rs, Newest(rs[..m]), listing)
    requires lost.packs == RecordAll(Db(rows, map[], map[]), rs[..m]).packs
    requires lost.locs == RecordAll(Db(rows, map[], map[]), rs[..m]).locs
    ensures var after := ReindexAll(lost, SortListings(NewerThan(listing, Newest(rs[..m]))));
            && after.packs == RecordAll(Db(rows, map[], map[]), rs).packs
            && after.locs == RecordAll(Db(rows, map[], map[]), rs).locs
            <==> Restorable(rs, m, listing)
  {
    hide SortListings, NewerThan, ReindexAll, RecordAll, NewestLast, NoStrays, LaterIsNewer, LaterIsListed, ReadsAsRecorded, Readable, AreListings;
    var was, late := Db(rows, map[], map[]), rs[m..];
    var snap, sorted := RecordAll(was, rs[..m]), SortListings(NewerThan(listing, Newest(rs[..m])));
    var ls := ToReindex(listing, Newest(rs[..m]));
    ReindexIgnoresRows(lost, snap, sorted);
    ReadableSame(snap, sorted);
    SplitRecords(was, rs, m);
    RecordedIds(was, rs[..m], 0);
    ToReindexIs(listing, Newest(rs[..m]));
    assert forall i, j | 0 <= i < j < |late| :: late[i].id != late[j].id;
    if ReindexAll(snap, ls).packs == RecordAll(was, rs).packs {
      PacksShow(was, rs, m, listing);
    }
    if LaterIsListed(rs, m, listing) && NoStrays(rs, m, listing) && LaterIsNewer(rs, m) {
      ReadsTheRest(rs, m, listing);
      LocsMatchIff(snap, late, ls);
      if NewestLast(late) {
        PacksMatch(snap, late, ls);
      }
    }
  }

  /** Packs recorded in id order need no more than that the later ones can be read and there are no strays. */
  lemma {:induction false} InOrderIsEnough(rs: seq<PackRecord>, m: nat)
    requires m <= |rs| && InOrder(Listings(rs))
    ensures LaterIsNewer(rs, m) && NewestLast(rs[m..])
  {
    forall i, j | 0 <= i < j < |rs| ensures rs[i].id < rs[j].id {
      assert Listings(rs)[i].id < Listings(rs)[j].id;
    }
  }

  /**
   Two packs of one offload run share their millisecond, so the second may have the
   lesser id. A snapshot taken between them then restores without it: the running
   archive has the pack, and the restored one never reads it.
   */
  lemma {:induction false} SkippedPack(rows: map<BodyKey, Row>, x: PackId, y: PackId, a: Pack, b: Pack)
    requires y < x && Distinct(a.entries) && Distinct(b.entries)
    ensures var was := Db(rows, map[], map[]);
            var rs := [PackRecord(x, a), PackRecord(y, b)];
            var after := ReindexAll(RecordAll(was, rs[..1]), SortListings(NewerThan(Listings(rs), Newest(rs[..1]))));
            && Recordable(was, rs) && y in RecordAll(was, rs).packs && y !in after.packs
  {
    hide SortListings, NewerThan, ReindexAll, RecordAll, Readable, BaseRow;
    var was := Db(rows, map[], map[]);
    var rs := [PackRecord(x, a), PackRecord(y, b)];
    var since := Newest(rs[..1]);
    NewestIsGreatest(rs[..1]);
    assert rs[..1][0].id == x;
    assert rs[1].id == y;
    RecordedIds(was, rs, y);
    RecordedIds(was, rs[..1], y);
    assert DistinctIds(Listings(rs));
    ToReindexIs(Listings(rs), since);
    var snap, ls := RecordAll(was, rs[..1]), ToReindex(Listings(rs), since);
    ReadableSame(snap, SortListings(NewerThan(Listings(rs), since)));
    ReindexAllPacks(snap, ls, y);
    BaseSome(snap.packs, ls, y);
    forall i | 0 <= i < |ls| ensures ls[i].id != y {
      assert ls[i] in ls;
    }
  }

  // ── The reindex, run ──────────────────────────────────────────────────────

  function Unread(ls: seq<Listing>): seq<PackId> {
    if ls == [] then []
    else Unread(ls[..|ls| - 1]) + if ls[|ls| - 1].file.None? then [ls[|ls| - 1].id] else []
  }

  /** `reindex`: the packs after `since`, oldest first; those that could not be read are reported. */
  method Reindex(store: ArchiveStore, listed: seq<Listing>, since: Option<PackId>) returns (failed: seq<PackId>)
    modifies store
    ensures store.View() == ReindexAll(old(store.View()), SortListings(NewerThan(listed, since)))
    ensures failed == Unread(SortListings(NewerThan(listed, since)))
  {
    hide LocateAll, SortListings, NewerThan, Located;
    var ls := SortListings(NewerThan(listed, since));
    failed := [];
    for i := 0 to |ls|
      invariant store.View() == ReindexAll(old(store.View()), ls[..i])
      invariant failed == Unread(ls[..i])
    {
      assert ls[..i + 1][..i] == ls[..i];
      if ls[i].file.None? {
        failed := failed + [ls[i].id];
      } else {
        ReindexInto(store, ls[i].id, ls[i].file.value);
      }
    }
    assert ls[..|ls|] == ls;
  }

  /** One pack's transaction. */
  method ReindexInto(store: ArchiveStore, id: PackId, f: File)
    modifies store
    ensures store.View() == ReindexOne(old(store.View()), id, f)
  {
    hide LocateAll;
    if id !in store.packs {
      store.packs := store.packs[id := RowOf(id, f)];
    }
    store.Locate(id, f.kind, f.entries);
    var live := SumOver(KeysIn(store.locs, id), LenOf(store.locs));
    if id in store.packs {
      store.packs := store.packs[id := store.packs[id].(live := live)];
    }
  }
}
