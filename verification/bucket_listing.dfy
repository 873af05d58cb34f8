/**
 What listing a bucket and reading its packs gives a reindex.
 */
module BucketListing {
  import opened Wrappers
  import opened Pack
  import opened Archive
  import opened Recovery

  /** `read_pack`: a pack's digest and entries, if it reads as a pack of its kind. */
  function ReadObject(bucket: Bucket, o: ObjKey, c: Codec): Option<File>
    requires o in bucket
  {
    match Read(o.kind, bucket[o], c)
    case Ok(es) => Some(File(o.kind, |bucket[o]|, Sha256(bucket[o]), es))
    case Err(_) => None
  }

  /** Every key of the bucket once, in any order. */
  predicate Enumerates(ks: seq<ObjKey>, bucket: Bucket) {
    && (forall i, j | 0 <= i < j < |ks| :: ks[i] != ks[j])
    && (forall o | o in bucket :: o in ks)
    && (forall i | 0 <= i < |ks| :: ks[i] in bucket)
  }

  function ListingAt(bucket: Bucket, o: ObjKey, c: Codec): Listing
    requires o in bucket
  {
    Listing(o.pack, ReadObject(bucket, o, c))
  }

  /** The packs a reindex finds. */
  function ListingFrom(ks: seq<ObjKey>, bucket: Bucket, c: Codec): (ls: seq<Listing>)
    requires Enumerates(ks, bucket)
    ensures |ls| == |ks| && forall i | 0 <= i < |ks| :: ls[i] == ListingAt(bucket, ks[i], c)
  {
    seq(|ks|, i requires 0 <= i < |ks| => ListingAt(bucket, ks[i], c))
  }

  /** A pack stored as it was built reads as its own entries. */
  lemma {:induction false} StoredPackReads(bucket: Bucket, o: ObjKey, bs: seq<Body>, c: Codec)
    requires Faithful(c) && Fits(o.kind, bs, c) && bs != [] && Increasing(bs) && NonEmpty(bs)
    requires o in bucket && bucket[o] == Packed(o.kind, bs, c).bytes
    ensures ReadObject(bucket, o, c) == Some(FileOf(Packed(o.kind, bs, c)))
  {
    hide Read, Layout, Concat, Fits;
    PackReadsBack(o.kind, bs, c);
  }

  /** The bucket has one object per pack id. */
  predicate OneKind(bucket: Bucket) {
    forall a, b | a in bucket && b in bucket && a.pack == b.pack :: a == b
  }

  lemma {:induction false} ListingIdsDistinct(ks: seq<ObjKey>, bucket: Bucket, c: Codec)
    requires Enumerates(ks, bucket) && OneKind(bucket)
    ensures DistinctIds(ListingFrom(ks, bucket, c))
  {
    var ls := ListingFrom(ks, bucket, c);
    forall i, j | 0 <= i < j < |ls| ensures ls[i].id != ls[j].id {
      assert ks[i] in bucket && ks[j] in bucket;
    }
  }

  lemma {:induction false} ListedObject(ks: seq<ObjKey>, bucket: Bucket, c: Codec, l: Listing) returns (o: ObjKey)
    requires Enumerates(ks, bucket) && l in ListingFrom(ks, bucket, c)
    ensures o in bucket && l == ListingAt(bucket, o, c)
  {
    var ls := ListingFrom(ks, bucket, c);
    var i :| 0 <= i < |ls| && ls[i] == l;
    o := ks[i];
  }

  lemma {:induction false} ObjectIsListed(ks: seq<ObjKey>, bucket: Bucket, c: Codec, o: ObjKey)
    requires Enumerates(ks, bucket) && o in bucket
    ensures ListingAt(bucket, o, c) in ListingFrom(ks, bucket, c)
  {
    var i :| 0 <= i < |ks| && ks[i] == o;
    assert ListingFrom(ks, bucket, c)[i] == ListingAt(bucket, o, c);
  }
}
