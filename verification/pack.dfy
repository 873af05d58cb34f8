/**
 The pack format: bodies of one kind back to back in id order, an index of where
 each lies and what it hashes to, the index's length and a magic trailer.

 SHA-256 is taken as collision-free: a digest is a value that determines the
 bytes. The zstd-compressed JSON lines of the index are a codec whose decoder
 undoes its encoder and may refuse anything else.
 */
module Pack {
  import opened Wrappers

  newtype byte = x: int | 0 <= x < 256
  type Bytes = seq<byte>

  /** Match ids, numbered in their text order. */
  type Id = nat

  datatype Kind = Match | Timeline
  datatype Digest = Sha256(of: Bytes)
  datatype Body = Body(id: Id, bytes: Bytes)
  datatype Entry = Entry(kind: Kind, id: Id, offset: nat, len: nat, sha: Digest)
  datatype Pack = Pack(kind: Kind, bytes: Bytes, entries: seq<Entry>, sha: Digest)

  datatype PackError = Empty | Duplicate(id: Id) | EmptyBody(id: Id) | NotAPack | BadIndex
  datatype Result<+T> = Ok(value: T) | Err(error: PackError)

  datatype Codec = Codec(encode: seq<Entry> -> Bytes, decode: Bytes -> Option<seq<Entry>>)

  const MAGIC: Bytes := [82, 80, 88, 80, 65, 67, 75, 49]
  const TRAILER_LEN := 16

  /** Decoding undoes encoding. */
  ghost predicate Faithful(c: Codec) {
    forall es :: c.decode(c.encode(es)) == Some(es)
  }

  /** The length of a pack's index fits the trailer's eight bytes, as the length of anything in memory does. */
  predicate Fits(kind: Kind, bs: seq<Body>, c: Codec) {
    |c.encode(Layout(kind, bs))| < Power(8)
  }

  // ── Little-endian lengths ─────────────────────────────────────────────────

  function Power(n: nat): nat {
    if n == 0 then 1 else 256 * Power(n - 1)
  }

  function LittleEndian(x: nat, n: nat): (s: Bytes)
    ensures |s| == n
  {
    if n == 0 then [] else [(x % 256) as byte] + LittleEndian(x / 256, n - 1)
  }

  function FromLittleEndian(s: Bytes): nat {
    if s == [] then 0 else s[0] as nat + 256 * FromLittleEndian(s[1..])
  }

  lemma {:induction false} LengthRoundTrip(x: nat, n: nat)
    requires x < Power(n)
    ensures FromLittleEndian(LittleEndian(x, n)) == x
  {
    if n > 0 {
      LengthRoundTrip(x / 256, n - 1);
      assert LittleEndian(x, n)[1..] == LittleEndian(x / 256, n - 1);
    }
  }

  // ── Sorting ───────────────────────────────────────────────────────────────

  function Occurs(bs: seq<Body>, x: Id): nat {
    if bs == [] then 0 else (if bs[0].id == x then 1 else 0) + Occurs(bs[1..], x)
  }

  predicate Sorted(bs: seq<Body>) {
    forall i, j | 0 <= i < j < |bs| :: bs[i].id <= bs[j].id
  }

  function Insert(b: Body, bs: seq<Body>): (out: seq<Body>)
    requires Sorted(bs)
    ensures Sorted(out) && multiset(out) == multiset(bs) + multiset{b}
  {
    if bs == [] || b.id < bs[0].id then
      assert multiset([b] + bs) == multiset(bs) + multiset{b};
      [b] + bs
    else
      var rest := Insert(b, bs[1..]);
      InsertHead(b, bs, rest);
      [bs[0]] + rest
  }

  lemma {:induction false} InsertHead(b: Body, bs: seq<Body>, rest: seq<Body>)
    requires bs != [] && bs[0].id <= b.id && Sorted(bs) && Sorted(rest)
    requires multiset(rest) == multiset(bs[1..]) + multiset{b}
    ensures Sorted([bs[0]] + rest) && multiset([bs[0]] + rest) == multiset(bs) + multiset{b}
  {
    assert bs == [bs[0]] + bs[1..];
    forall y | y in rest ensures bs[0].id <= y.id {
      assert y in multiset(rest);
    }
  }

  /** `sort_by` the match id. */
  function SortById(bs: seq<Body>): (out: seq<Body>)
    ensures Sorted(out) && multiset(out) == multiset(bs)
  {
    if bs == [] then []
    else
      assert bs == [bs[0]] + bs[1..];
      Insert(bs[0], SortById(bs[1..]))
  }

  lemma {:induction false} OccursInserted(b: Body, bs: seq<Body>, x: Id)
    requires Sorted(bs)
    ensures Occurs(Insert(b, bs), x) == (if b.id == x then 1 else 0) + Occurs(bs, x)
  {
    if bs == [] || b.id < bs[0].id {
      assert ([b] + bs)[1..] == bs;
    } else {
      OccursInserted(b, bs[1..], x);
      assert ([bs[0]] + Insert(b, bs[1..]))[1..] == Insert(b, bs[1..]);
    }
  }

  lemma {:induction false} OccursSorted(bs: seq<Body>, x: Id)
    ensures Occurs(SortById(bs), x) == Occurs(bs, x)
  {
    if bs != [] {
      OccursSorted(bs[1..], x);
      OccursInserted(bs[0], SortById(bs[1..]), x);
    }
  }

  predicate Increasing(bs: seq<Body>) {
    forall i, j | 0 <= i < j < |bs| :: bs[i].id < bs[j].id
  }

  lemma {:induction false} OccursSplit(a: seq<Body>, b: seq<Body>, x: Id)
    ensures Occurs(a + b, x) == Occurs(a, x) + Occurs(b, x)
  {
    if a == [] {
      assert a + b == b;
    } else {
      assert (a + b)[1..] == a[1..] + b;
      OccursSplit(a[1..], b, x);
    }
  }

  lemma {:induction false} OccursNowhere(bs: seq<Body>, x: Id)
    requires forall i | 0 <= i < |bs| :: bs[i].id != x
    ensures Occurs(bs, x) == 0
  {
    if bs != [] {
      OccursNowhere(bs[1..], x);
    }
  }

  lemma {:induction false} OccursOnce(bs: seq<Body>, x: Id)
    requires Increasing(bs)
    ensures Occurs(bs, x) <= 1
  {
    if bs != [] {
      if bs[0].id == x {
        OccursNowhere(bs[1..], x);
      } else {
        OccursOnce(bs[1..], x);
      }
    }
  }

  /** The first repeated neighbour of a sorted list is the least repeated id. */
  lemma {:induction false} FirstRepeat(bs: seq<Body>, i: nat, y: Id)
    requires Sorted(bs) && i + 1 < |bs| && Increasing(bs[..i + 1]) && bs[i].id == bs[i + 1].id
    ensures y == bs[i].id ==> Occurs(bs, y) >= 2
    ensures y < bs[i].id ==> Occurs(bs, y) <= 1
  {
    hide Occurs;
    var from := bs[i..];
    assert bs == bs[..i] + from;
    OccursSplit(bs[..i], from, y);
    if y == bs[i].id {
      OccursTwice(from, y);
    }
    if y < bs[i].id {
      assert forall j | 0 <= j < |from| :: from[j] == bs[i + j];
      OccursNowhere(from, y);
      OccursOnce(bs[..i], y);
    }
  }

  lemma {:induction false} OccursTwice(bs: seq<Body>, x: Id)
    requires |bs| >= 2 && bs[0].id == x == bs[1].id
    ensures Occurs(bs, x) >= 2
  {
    assert bs[1..][0] == bs[1];
  }

  /** The repeated id `windows(2)` finds in sorted bodies. */
  method FindRepeat(bs: seq<Body>) returns (r: Option<Id>)
    requires Sorted(bs)
    ensures r.None? <==> Increasing(bs)
    ensures r.None? <==> forall x: Id :: Occurs(bs, x) <= 1
    ensures r.Some? ==> Occurs(bs, r.value) >= 2 && forall y: Id | y < r.value :: Occurs(bs, y) <= 1
  {
    var i := 1;
    while i < |bs|
      invariant 1 <= i && Increasing(bs[..if i < |bs| then i else |bs|])
    {
      if bs[i - 1].id == bs[i].id {
        forall y: Id
          ensures y == bs[i].id ==> Occurs(bs, y) >= 2
          ensures y < bs[i].id ==> Occurs(bs, y) <= 1
        {
          FirstRepeat(bs, i - 1, y);
        }
        assert Occurs(bs, bs[i].id) >= 2;
        return Some(bs[i].id);
      }
      i := i + 1;
    }
    assert bs[..|bs|] == bs;
    forall x: Id ensures Occurs(bs, x) <= 1 {
      OccursOnce(bs, x);
    }
    r := None;
  }

  // ── Building ──────────────────────────────────────────────────────────────

  function Concat(bs: seq<Body>): Bytes {
    if bs == [] then [] else Concat(bs[..|bs| - 1]) + bs[|bs| - 1].bytes
  }

  /** Where each body of a list packed in order lies. */
  function Layout(kind: Kind, bs: seq<Body>): (es: seq<Entry>)
    ensures |es| == |bs|
  {
    if bs == [] then [] else
      var init, last := bs[..|bs| - 1], bs[|bs| - 1];
      Layout(kind, init) + [Entry(kind, last.id, |Concat(init)|, |last.bytes|, Sha256(last.bytes))]
  }

  function Trailer(index: Bytes): Bytes {
    LittleEndian(|index|, 8) + MAGIC
  }

  /** A pack of sorted bodies. */
  function Packed(kind: Kind, bs: seq<Body>, c: Codec): Pack {
    var index := c.encode(Layout(kind, bs));
    var bytes := Concat(bs) + index + Trailer(index);
    Pack(kind, bytes, Layout(kind, bs), Sha256(bytes))
  }

  predicate NonEmpty(bs: seq<Body>) {
    forall i | 0 <= i < |bs| :: bs[i].bytes != []
  }

  /** The loop of `build` over the sorted bodies, and the index and trailer after them. */
  method Assemble(kind: Kind, bs: seq<Body>, c: Codec) returns (r: Result<Pack>)
    requires Sorted(bs)
    ensures r.Ok? <==> NonEmpty(bs)
    ensures r.Ok? ==> r.value == Packed(kind, bs, c)
    ensures r.Err? ==> r.error.EmptyBody? && Body(r.error.id, []) in bs
                       && forall b | b in bs && b.id < r.error.id :: b.bytes != []
  {
    hide Concat, Layout;
    var out: Bytes := [];
    var entries: seq<Entry> := [];
    NothingLaidOut(kind, bs);
    for i := 0 to |bs|
      invariant out == Concat(bs[..i]) && entries == Layout(kind, bs[..i])
      invariant forall j | 0 <= j < i :: bs[j].bytes != []
    {
      var b := bs[i];
      if b.bytes == [] {
        assert bs[i] == Body(b.id, []);
        return Err(EmptyBody(b.id));
      }
      LaidOutNext(kind, bs, i);
      entries := entries + [Entry(kind, b.id, |out|, |b.bytes|, Sha256(b.bytes))];
      out := out + b.bytes;
    }
    assert bs[..|bs|] == bs;
    var index := c.encode(entries);
    out := out + index;
    out := out + LittleEndian(|index|, 8);
    out := out + MAGIC;
    assert out == Concat(bs) + index + Trailer(index);
    r := Ok(Pack(kind, out, entries, Sha256(out)));
  }

  lemma NothingLaidOut(kind: Kind, bs: seq<Body>)
    ensures Concat(bs[..0]) == [] && Layout(kind, bs[..0]) == []
  {}

  lemma {:induction false} LaidOutNext(kind: Kind, bs: seq<Body>, i: nat)
    requires i < |bs|
    ensures Concat(bs[..i + 1]) == Concat(bs[..i]) + bs[i].bytes
    ensures Layout(kind, bs[..i + 1])
            == Layout(kind, bs[..i]) + [Entry(kind, bs[i].id, |Concat(bs[..i])|, |bs[i].bytes|, Sha256(bs[i].bytes))]
  {
    assert bs[..i + 1][..i] == bs[..i];
  }

  /** `build`: refuses no bodies, then the least repeated id, then the least id with an empty body. */
  method Build(kind: Kind, bodies: seq<Body>, c: Codec) returns (r: Result<Pack>)
    ensures r.Ok? <==> bodies != [] && (forall x: Id :: Occurs(bodies, x) <= 1) && NonEmpty(bodies)
    ensures r.Ok? ==> r.value == Packed(kind, SortById(bodies), c) && Increasing(SortById(bodies))
    ensures r.Err? && r.error.Empty? <==> bodies == []
    ensures r.Err? && r.error.Duplicate? ==>
              Occurs(bodies, r.error.id) >= 2 && forall y: Id | y < r.error.id :: Occurs(bodies, y) <= 1
    ensures r.Err? && r.error.EmptyBody? ==>
              && (forall x: Id :: Occurs(bodies, x) <= 1)
              && Body(r.error.id, []) in bodies && forall b | b in bodies && b.id < r.error.id :: b.bytes != []
    ensures r.Err? ==> r.error.Empty? || r.error.Duplicate? || r.error.EmptyBody?
  {
    hide Occurs, Packed, Sorted, SortById, NonEmpty;
    if bodies == [] {
      return Err(Empty);
    }
    var bs := SortById(bodies);
    SameMembers(bodies, bs);
    forall x: Id ensures Occurs(bs, x) == Occurs(bodies, x) {
      OccursSorted(bodies, x);
    }
    var repeat := FindRepeat(bs);
    if repeat.Some? {
      return Err(Duplicate(repeat.value));
    }
    forall x: Id ensures Occurs(bodies, x) <= 1 {
      assert Occurs(bs, x) == Occurs(bodies, x);
    }
    r := Assemble(kind, bs, c);
  }

  lemma {:induction false} SameMembers(a: seq<Body>, b: seq<Body>)
    requires multiset(a) == multiset(b)
    ensures forall x :: x in a <==> x in b
    ensures NonEmpty(a) <==> NonEmpty(b)
    ensures |a| == |b|
  {
    assert forall x :: x in a <==> x in multiset(a);
    assert forall x :: x in b <==> x in multiset(b);
    assert |multiset(a)| == |multiset(b)|;
    if NonEmpty(a) {
      assert forall x | x in a :: x.bytes != [];
      assert forall i | 0 <= i < |b| :: b[i] in a;
    }
    if NonEmpty(b) {
      assert forall x | x in b :: x.bytes != [];
      assert forall i | 0 <= i < |a| :: a[i] in b;
    }
  }

  // ── Reading ───────────────────────────────────────────────────────────────

  datatype Range = Range(start: nat, end: nat)

  /** `index_range`. */
  function IndexRange(size: nat, trailer: Bytes): (r: Result<Range>)
    ensures r.Ok? ==> r.value.start <= r.value.end == size - TRAILER_LEN
  {
    if size < TRAILER_LEN || |trailer| != TRAILER_LEN || trailer[8..] != MAGIC then Err(NotAPack)
    else
      var len := FromLittleEndian(trailer[..8]);
      if len > size - TRAILER_LEN then Err(NotAPack) else Ok(Range(size - TRAILER_LEN - len, size - TRAILER_LEN))
  }

  /** What `parse_index` asks of one entry and the one before it. */
  predicate GoodEntry(kind: Kind, es: seq<Entry>, i: nat, bodiesEnd: nat)
    requires i < |es|
  {
    && es[i].kind == kind && es[i].len > 0 && es[i].offset + es[i].len <= bodiesEnd
    && (i > 0 ==> es[i - 1].id < es[i].id && es[i - 1].offset + es[i - 1].len <= es[i].offset)
  }

  predicate GoodIndex(kind: Kind, es: seq<Entry>, bodiesEnd: nat) {
    es != [] && forall i | 0 <= i < |es| :: GoodEntry(kind, es, i, bodiesEnd)
  }

  /** `parse_index`: an index is accepted just when every line is good, and then as it stands. */
  method ParseIndex(kind: Kind, compressed: Bytes, bodiesEnd: nat, c: Codec) returns (r: Result<seq<Entry>>)
    ensures r == Parsed(kind, compressed, bodiesEnd, c)
  {
    var lines := c.decode(compressed);
    if lines.None? {
      return Err(BadIndex);
    }
    var es := lines.value;
    var entries := [];
    for i := 0 to |es|
      invariant entries == es[..i]
      invariant forall j | 0 <= j < i :: GoodEntry(kind, es, j, bodiesEnd)
    {
      var e := es[i];
      assert GoodIndex(kind, es, bodiesEnd) ==> GoodEntry(kind, es, i, bodiesEnd);
      if e.kind != kind {
        return Err(BadIndex);
      }
      if e.len == 0 || e.offset + e.len > bodiesEnd {
        return Err(BadIndex);
      }
      if entries != [] {
        var prev := entries[|entries| - 1];
        if prev.id >= e.id || prev.offset + prev.len > e.offset {
          return Err(BadIndex);
        }
      }
      entries := entries + [e];
    }
    assert es[..|es|] == es;
    if entries == [] {
      return Err(BadIndex);
    }
    r := Ok(entries);
  }

  function Parsed(kind: Kind, compressed: Bytes, bodiesEnd: nat, c: Codec): Result<seq<Entry>> {
    var lines := c.decode(compressed);
    if lines.Some? && GoodIndex(kind, lines.value, bodiesEnd) then Ok(lines.value) else Err(BadIndex)
  }

  /** `read`: the trailer, then the index. */
  function Read(kind: Kind, pack: Bytes, c: Codec): (r: Result<seq<Entry>>)
    ensures r.Ok? ==> |pack| >= TRAILER_LEN && exists end | 0 <= end <= |pack| - TRAILER_LEN :: GoodIndex(kind, r.value, end)
  {
    var tail := if |pack| < TRAILER_LEN then pack else pack[|pack| - TRAILER_LEN..];
    var range := IndexRange(|pack|, tail);
    if range.Err? then Err(range.error)
    else Parsed(kind, pack[range.value.start..range.value.end], range.value.start, c)
  }

  /** The bytes of an entry, if the object has them. */
  function Slice(pack: Bytes, e: Entry): Option<Bytes> {
    if e.offset + e.len <= |pack| then Some(pack[e.offset..e.offset + e.len]) else None
  }

  predicate Holds(pack: Bytes, e: Entry) {
    Slice(pack, e).Some? && Sha256(Slice(pack, e).value) == e.sha
  }

  /** `verify`. */
  method Verify(pack: Bytes, entries: seq<Entry>) returns (ok: bool)
    ensures ok <==> forall i | 0 <= i < |entries| :: Holds(pack, entries[i])
  {
    for i := 0 to |entries|
      invariant forall j | 0 <= j < i :: Holds(pack, entries[j])
    {
      if !Holds(pack, entries[i]) {
        return false;
      }
    }
    ok := true;
  }

  /** A good index names no body twice and no byte twice. */
  lemma {:induction false} GoodIndexOrder(kind: Kind, es: seq<Entry>, bodiesEnd: nat, i: nat, j: nat)
    requires GoodIndex(kind, es, bodiesEnd) && i < j < |es|
    ensures es[i].id < es[j].id && es[i].offset + es[i].len <= es[j].offset
    decreases j
  {
    assert GoodEntry(kind, es, j, bodiesEnd);
    if i < j - 1 {
      assert GoodEntry(kind, es, j - 1, bodiesEnd);
      GoodIndexOrder(kind, es, bodiesEnd, i, j - 1);
    }
  }

  // ── The round trip ────────────────────────────────────────────────────────

  lemma {:induction false} LayoutAt(kind: Kind, bs: seq<Body>, i: nat)
    requires i < |bs|
    ensures Layout(kind, bs)[i]
            == Entry(kind, bs[i].id, |Concat(bs[..i])|, |bs[i].bytes|, Sha256(bs[i].bytes))
    ensures |Concat(bs[..i])| + |bs[i].bytes| == |Concat(bs[..i + 1])| <= |Concat(bs)|
    ensures Concat(bs)[|Concat(bs[..i])|..|Concat(bs[..i + 1])|] == bs[i].bytes
    decreases |bs|
  {
    var init := bs[..|bs| - 1];
    assert bs[..i + 1][..i] == bs[..i];
    if i < |bs| - 1 {
      LayoutAt(kind, init, i);
      assert init[..i] == bs[..i] && init[..i + 1] == bs[..i + 1];
      assert Concat(bs)[..|Concat(init)|] == Concat(init);
    } else {
      assert bs[..i + 1] == bs;
    }
  }

  lemma {:induction false} GoodLayout(kind: Kind, bs: seq<Body>)
    requires bs != [] && Increasing(bs) && NonEmpty(bs)
    ensures GoodIndex(kind, Layout(kind, bs), |Concat(bs)|)
  {
    var es := Layout(kind, bs);
    forall i | 0 <= i < |es| ensures GoodEntry(kind, es, i, |Concat(bs)|) {
      LayoutAt(kind, bs, i);
      if i > 0 {
        LayoutAt(kind, bs, i - 1);
      }
    }
  }

  lemma {:induction false} TrailerReadsBack(body: Bytes, index: Bytes)
    requires |index| < Power(8)
    ensures var pack := body + index + Trailer(index);
            && IndexRange(|pack|, pack[|pack| - TRAILER_LEN..]) == Ok(Range(|body|, |body| + |index|))
            && pack[|body|..|body| + |index|] == index
  {
    var pack := body + index + Trailer(index);
    LengthRoundTrip(|index|, 8);
    assert pack[|pack| - TRAILER_LEN..] == Trailer(index);
    assert Trailer(index)[..8] == LittleEndian(|index|, 8);
    assert Trailer(index)[8..] == MAGIC;
  }

  /** Entry `i` is body `i`: its id, its bytes, and up to where the next one starts. */
  predicate IsBody(p: Pack, bs: seq<Body>, i: nat)
    requires i < |bs| == |p.entries|
  {
    var e := p.entries[i];
    && e.id == bs[i].id && Slice(p.bytes, e) == Some(bs[i].bytes) && Holds(p.bytes, e)
    && e.offset + e.len == if i + 1 < |bs| then p.entries[i + 1].offset else |Concat(bs)|
  }

  /**
   Every pack built reads back as the entries it was built with. They tile the
   body region in id order, and the bytes of each are a body that went in.
   */
  lemma {:induction false} PackReadsBack(kind: Kind, bs: seq<Body>, c: Codec)
    requires Faithful(c) && Fits(kind, bs, c) && bs != [] && Increasing(bs) && NonEmpty(bs)
    ensures var p := Packed(kind, bs, c);
            && Read(kind, p.bytes, c) == Ok(p.entries)
            && |p.entries| == |bs| && p.entries[0].offset == 0
            && forall i | 0 <= i < |bs| :: IsBody(p, bs, i)
  {
    hide Read, Concat, Layout, IndexRange, GoodIndex, IsBody;
    ReadsIndex(kind, bs, c);
    LayoutAt(kind, bs, 0);
    NothingLaidOut(kind, bs);
    forall i | 0 <= i < |bs| ensures IsBody(Packed(kind, bs, c), bs, i) {
      PackSlice(kind, bs, c, i);
    }
  }

  lemma {:induction false} ReadsIndex(kind: Kind, bs: seq<Body>, c: Codec)
    requires Faithful(c) && Fits(kind, bs, c) && bs != [] && Increasing(bs) && NonEmpty(bs)
    ensures Read(kind, Packed(kind, bs, c).bytes, c) == Ok(Layout(kind, bs))
  {
    hide Concat, Layout, IndexRange, GoodIndex;
    var es := Layout(kind, bs);
    assert c.decode(c.encode(es)) == Some(es);
    TrailerReadsBack(Concat(bs), c.encode(es));
    GoodLayout(kind, bs);
  }

  lemma {:induction false} PackSlice(kind: Kind, bs: seq<Body>, c: Codec, i: nat)
    requires i < |bs|
    ensures IsBody(Packed(kind, bs, c), bs, i)
  {
    hide Concat, Layout;
    var p, es, body := Packed(kind, bs, c), Layout(kind, bs), Concat(bs);
    LayoutAt(kind, bs, i);
    if i + 1 < |bs| {
      LayoutAt(kind, bs, i + 1);
    } else {
      assert bs[..i + 1] == bs;
    }
    assert p.bytes[es[i].offset..es[i].offset + es[i].len] == body[es[i].offset..es[i].offset + es[i].len];
  }
}
