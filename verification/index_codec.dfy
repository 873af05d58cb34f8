/**
 A codec that `Pack`'s results hold of: numbers in unary, each digest as the bytes
 it is of. The program's own codec is zstd over JSON lines; this one shows that
 what is asked of a codec can be met.
 */
module IndexCodec {
  import opened Wrappers
  import opened Pack

  datatype Taken<T> = Taken(value: T, rest: Bytes)

  function EncodeNat(n: nat): Bytes {
    if n == 0 then [0] else [1] + EncodeNat(n - 1)
  }

  function DecodeNat(s: Bytes): (r: Option<Taken<nat>>)
    ensures r.Some? ==> |r.value.rest| < |s|
  {
    if s == [] then None
    else if s[0] == 0 then Some(Taken(0, s[1..]))
    else
      var r := DecodeNat(s[1..]);
      if r.None? then None else Some(Taken(r.value.value + 1, r.value.rest))
  }

  lemma {:induction false} NatReadsBack(n: nat, rest: Bytes)
    ensures DecodeNat(EncodeNat(n) + rest) == Some(Taken(n, rest))
  {
    var s := EncodeNat(n) + rest;
    if n == 0 {
      assert s[1..] == rest;
    } else {
      assert s[1..] == EncodeNat(n - 1) + rest;
      NatReadsBack(n - 1, rest);
    }
  }

  function EncodeBytes(b: Bytes): Bytes {
    EncodeNat(|b|) + b
  }

  function DecodeBytes(s: Bytes): (r: Option<Taken<Bytes>>)
    ensures r.Some? ==> |r.value.rest| < |s|
  {
    var n := DecodeNat(s);
    if n.None? || |n.value.rest| < n.value.value then None
    else Some(Taken(n.value.rest[..n.value.value], n.value.rest[n.value.value..]))
  }

  lemma {:induction false} BytesReadBack(b: Bytes, rest: Bytes)
    ensures DecodeBytes(EncodeBytes(b) + rest) == Some(Taken(b, rest))
  {
    assert EncodeBytes(b) + rest == EncodeNat(|b|) + (b + rest);
    NatReadsBack(|b|, b + rest);
    assert (b + rest)[..|b|] == b && (b + rest)[|b|..] == rest;
  }

  function EncodeEntry(e: Entry): Bytes {
    [if e.kind.Match? then 0 else 1]
    + (EncodeNat(e.id) + (EncodeNat(e.offset) + (EncodeNat(e.len) + EncodeBytes(e.sha.of))))
  }

  function DecodeEntry(s: Bytes): (r: Option<Taken<Entry>>)
    ensures r.Some? ==> |r.value.rest| < |s|
  {
    if s == [] then None else
      var id := DecodeNat(s[1..]);
      if id.None? then None else
        var offset := DecodeNat(id.value.rest);
        if offset.None? then None else
          var len := DecodeNat(offset.value.rest);
          if len.None? then None else
            var of := DecodeBytes(len.value.rest);
            if of.None? then None else
              Some(Taken(
                     Entry(if s[0] == 0 then Match else Timeline,
                           id.value.value, offset.value.value, len.value.value, Sha256(of.value.value)),
                     of.value.rest))
  }

  lemma {:induction false} EntryReadsBack(e: Entry, rest: Bytes)
    ensures DecodeEntry(EncodeEntry(e) + rest) == Some(Taken(e, rest))
  {
    hide EncodeNat, EncodeBytes, DecodeNat, DecodeBytes;
    var s := EncodeEntry(e) + rest;
    var d := EncodeBytes(e.sha.of) + rest;
    var c := EncodeNat(e.len) + d;
    var b := EncodeNat(e.offset) + c;
    var a := EncodeNat(e.id) + b;
    assert s[1..] == a;
    NatReadsBack(e.id, b);
    NatReadsBack(e.offset, c);
    NatReadsBack(e.len, d);
    BytesReadBack(e.sha.of, rest);
  }

  function Encode(es: seq<Entry>): Bytes {
    if es == [] then [] else EncodeEntry(es[0]) + Encode(es[1..])
  }

  function Decode(s: Bytes): Option<seq<Entry>>
    decreases |s|
  {
    if s == [] then Some([])
    else
      var e := DecodeEntry(s);
      if e.None? then None
      else
        var es := Decode(e.value.rest);
        if es.None? then None else Some([e.value.value] + es.value)
  }

  lemma {:induction false} IndexReadsBack(es: seq<Entry>)
    ensures Decode(Encode(es)) == Some(es)
  {
    hide EncodeEntry, DecodeEntry;
    if es != [] {
      EntryReadsBack(es[0], Encode(es[1..]));
      IndexReadsBack(es[1..]);
      EntryNotEmpty(es[0]);
      assert es == [es[0]] + es[1..];
    }
  }

  lemma EntryNotEmpty(e: Entry)
    ensures EncodeEntry(e) != []
  {}

  const UNARY := Codec(Encode, Decode)

  /** The codec is faithful, and for the pack of one one-byte body its index fits the trailer. */
  lemma {:induction false} CodecExists()
    ensures Faithful(UNARY)
    ensures Fits(Match, [Body(0, [0])], UNARY)
  {
    forall es ensures UNARY.decode(UNARY.encode(es)) == Some(es) {
      IndexReadsBack(es);
    }
    var bs := [Body(0, [0])];
    assert bs[..0] == [] && Concat(bs[..0]) == [];
    assert Layout(Match, bs[..0]) == [];
    var e := Entry(Match, 0, 0, 1, Sha256([0]));
    assert Layout(Match, bs) == [e];
    assert Encode([e]) == EncodeEntry(e) + Encode([]);
    assert EncodeNat(1) == [1, 0];
    assert |EncodeEntry(e)| == 8;
    assert Power(8) > 256;
  }
}
