/**
 The purge's glob, in Redis' MATCH syntax: a pattern compiled once to tokens and
 matched by a loop that backtracks to the last star only. It agrees with the
 recursive matcher that tries every split, and its loop is bounded by the
 product of the two lengths.
 */
module Glob {
  import opened Wrappers

  datatype Range = Range(lo: char, hi: char)
  datatype Tok = Star | Any | Lit(c: char) | Class(negate: bool, ranges: seq<Range>)

  predicate Has(ranges: seq<Range>, c: char) {
    exists i | 0 <= i < |ranges| :: ranges[i].lo <= c <= ranges[i].hi
  }

  /** `Tok::matches`. */
  predicate TokMatches(t: Tok, c: char) {
    match t
    case Star => true
    case Any => true
    case Lit(x) => x == c
    case Class(negate, ranges) => Has(ranges, c) != negate
  }

  // ── The recursive matcher ─────────────────────────────────────────────────

  datatype Scan = Scan(hit: bool, rest: nat)

  /** A range of a class at `i`: a low end, a dash and a high end that does not close the class. */
  predicate IsRange(p: string, i: nat) {
    i + 2 < |p| && p[i + 1] == '-' && p[i + 2] != ']'
  }

  function Ends(a: char, b: char): Range {
    if a <= b then Range(a, b) else Range(b, a)
  }

  /** A class read from `i` with `c` in hand, to its bracket or the pattern's end. */
  function ScanClass(p: string, i: nat, c: char, hit: bool): (s: Scan)
    requires i <= |p|
    ensures i <= s.rest <= |p|
    decreases |p| - i
  {
    if i == |p| then Scan(hit, i)
    else if p[i] == ']' then Scan(hit, i + 1)
    else if p[i] == '\\' && i + 1 < |p| then ScanClass(p, i + 2, c, hit || p[i + 1] == c)
    else if IsRange(p, i) then
      ScanClass(p, i + 3, c, hit || Ends(p[i], p[i + 2]).lo <= c <= Ends(p[i], p[i + 2]).hi)
    else ScanClass(p, i + 1, c, hit || p[i] == c)
  }

  predicate Negated(p: string, i: nat) {
    i + 1 < |p| && p[i + 1] == '^'
  }

  function ClassStart(p: string, i: nat): nat {
    if Negated(p, i) then i + 2 else i + 1
  }

  /** The matcher the loop replaced: the pattern from `i` against the whole of `k`. */
  predicate Go(p: string, i: nat, k: string)
    requires i <= |p|
    decreases |p| - i
  {
    if i == |p| then k == []
    else if p[i] == '*' then exists j | 0 <= j <= |k| :: Go(p, i + 1, k[j..])
    else if p[i] == '?' then k != [] && Go(p, i + 1, k[1..])
    else if p[i] == '[' then
      k != []
      && var s := ScanClass(p, ClassStart(p, i), k[0], false);
         s.hit != Negated(p, i) && Go(p, s.rest, k[1..])
    else if p[i] == '\\' && i + 1 < |p| then k != [] && k[0] == p[i + 1] && Go(p, i + 2, k[1..])
    else k != [] && k[0] == p[i] && Go(p, i + 1, k[1..])
  }

  // ── Tokens ────────────────────────────────────────────────────────────────

  datatype Ranges = Ranges(ranges: seq<Range>, rest: nat)

  datatype Item = Item(range: Range, rest: nat)

  /** One range of a class: an escaped character, two ends, or a character. */
  function ItemAt(p: string, i: nat): (m: Item)
    requires i < |p|
    ensures i < m.rest <= |p|
  {
    if p[i] == '\\' && i + 1 < |p| then Item(Range(p[i + 1], p[i + 1]), i + 2)
    else if IsRange(p, i) then Item(Ends(p[i], p[i + 2]), i + 3)
    else Item(Range(p[i], p[i]), i + 1)
  }

  /** The ranges of a class from `i`, and where it ends. */
  function ClassFrom(p: string, i: nat): (r: Ranges)
    requires i <= |p|
    ensures i <= r.rest <= |p|
    decreases |p| - i
  {
    if i == |p| then Ranges([], i)
    else if p[i] == ']' then Ranges([], i + 1)
    else
      var r := ClassFrom(p, ItemAt(p, i).rest);
      Ranges([ItemAt(p, i).range] + r.ranges, r.rest)
  }

  datatype Lexed = Lexed(tok: Tok, rest: nat)

  /** The token at `i`. */
  function First(p: string, i: nat): (l: Lexed)
    requires i < |p|
    ensures i < l.rest <= |p|
  {
    if p[i] == '*' then Lexed(Star, i + 1)
    else if p[i] == '?' then Lexed(Any, i + 1)
    else if p[i] == '[' then
      var r := ClassFrom(p, ClassStart(p, i));
      Lexed(Class(Negated(p, i), r.ranges), r.rest)
    else if p[i] == '\\' && i + 1 < |p| then Lexed(Lit(p[i + 1]), i + 2)
    else Lexed(Lit(p[i]), i + 1)
  }

  function Lex(p: string, i: nat): seq<Tok>
    requires i <= |p|
    decreases |p| - i
  {
    if i == |p| then [] else [First(p, i).tok] + Lex(p, First(p, i).rest)
  }

  /** What a token sequence matches. */
  predicate Accepts(t: seq<Tok>, k: string) {
    if t == [] then k == []
    else if t[0].Star? then exists j | 0 <= j <= |k| :: Accepts(t[1..], k[j..])
    else k != [] && TokMatches(t[0], k[0]) && Accepts(t[1..], k[1..])
  }

  lemma {:induction false} ScanIsRanges(p: string, i: nat, c: char, hit: bool)
    requires i <= |p|
    ensures ScanClass(p, i, c, hit) == Scan(hit || Has(ClassFrom(p, i).ranges, c), ClassFrom(p, i).rest)
    decreases |p| - i
  {
    if i < |p| && p[i] != ']' {
      var m := ItemAt(p, i);
      ScanIsRanges(p, m.rest, c, hit || m.range.lo <= c <= m.range.hi);
      HasFirst(m.range, ClassFrom(p, m.rest).ranges, c);
    }
  }

  lemma {:induction false} HasFirst(r: Range, rs: seq<Range>, c: char)
    ensures Has([r] + rs, c) <==> r.lo <= c <= r.hi || Has(rs, c)
  {
    var all := [r] + rs;
    if r.lo <= c <= r.hi {
      assert all[0].lo <= c <= all[0].hi;
    }
    if i :| 0 <= i < |rs| && rs[i].lo <= c <= rs[i].hi {
      assert all[i + 1].lo <= c <= all[i + 1].hi;
    }
  }

  /** Lexing keeps a pattern's meaning. */
  lemma {:induction false} LexedMeansTheSame(p: string, i: nat, k: string)
    requires i <= |p|
    ensures Accepts(Lex(p, i), k) <==> Go(p, i, k)
    decreases |p| - i
  {
    if i < |p| {
      var l := First(p, i);
      var t := Lex(p, i);
      assert t[1..] == Lex(p, l.rest);
      if p[i] == '*' {
        forall j | 0 <= j <= |k| ensures Accepts(t[1..], k[j..]) <==> Go(p, i + 1, k[j..]) {
          LexedMeansTheSame(p, i + 1, k[j..]);
        }
      } else if k != [] {
        if p[i] == '[' {
          ScanIsRanges(p, ClassStart(p, i), k[0], false);
        }
        LexedMeansTheSame(p, l.rest, k[1..]);
      }
    }
  }

  // ── Collapsing stars ──────────────────────────────────────────────────────

  /** A token pushed, a star after a star dropped. */
  function Push(ts: seq<Tok>, t: Tok): seq<Tok> {
    if t.Star? && ts != [] && ts[|ts| - 1].Star? then ts else ts + [t]
  }

  function Collapse(ts: seq<Tok>): seq<Tok> {
    if ts == [] then [] else Push(Collapse(ts[..|ts| - 1]), ts[|ts| - 1])
  }

  /** A star matches any key a suffix of which the rest matches; so what follows may start later. */
  lemma {:induction false} StarAbsorbs(t: seq<Tok>, k: string, n: nat)
    requires t != [] && t[0].Star? && n <= |k| && Accepts(t, k[n..])
    ensures Accepts(t, k)
  {
    var j :| 0 <= j <= |k[n..]| && Accepts(t[1..], k[n..][j..]);
    assert k[n..][j..] == k[n + j..];
    assert Accepts(t[1..], k[n + j..]);
  }

  lemma {:induction false} StarStar(t: seq<Tok>, k: string)
    ensures Accepts([Star, Star] + t, k) <==> Accepts([Star] + t, k)
  {
    assert ([Star, Star] + t)[1..] == [Star] + t;
    if Accepts([Star, Star] + t, k) {
      var j :| 0 <= j <= |k| && Accepts([Star] + t, k[j..]);
      StarAbsorbs([Star] + t, k, j);
    }
    if Accepts([Star] + t, k) {
      assert k[0..] == k;
      assert Accepts([Star] + t, k[0..]);
    }
  }

  /** Sequences that match alike match alike after any prefix. */
  lemma {:induction false} SameAfter(a: seq<Tok>, t: seq<Tok>, u: seq<Tok>, k: string)
    requires forall k :: Accepts(t, k) <==> Accepts(u, k)
    ensures Accepts(a + t, k) <==> Accepts(a + u, k)
    decreases |a|
  {
    if a == [] {
      assert a + t == t && a + u == u;
    } else {
      assert (a + t)[1..] == a[1..] + t && (a + u)[1..] == a[1..] + u;
      if a[0].Star? {
        forall j | 0 <= j <= |k| ensures Accepts(a[1..] + t, k[j..]) <==> Accepts(a[1..] + u, k[j..]) {
          SameAfter(a[1..], t, u, k[j..]);
        }
      } else if k != [] {
        SameAfter(a[1..], t, u, k[1..]);
      }
    }
  }

  lemma {:induction false} PushMeansTheSame(ts: seq<Tok>, t: Tok, rest: seq<Tok>, k: string)
    ensures Accepts(Push(ts, t) + rest, k) <==> Accepts(ts + [t] + rest, k)
  {
    if t.Star? && ts != [] && ts[|ts| - 1].Star? {
      var init := ts[..|ts| - 1];
      forall k ensures Accepts([Star, Star] + rest, k) <==> Accepts([Star] + rest, k) {
        StarStar(rest, k);
      }
      SameAfter(init, [Star, Star] + rest, [Star] + rest, k);
      assert ts + rest == init + ([Star] + rest);
      assert ts + [t] + rest == init + ([Star, Star] + rest);
    }
  }

  /** Collapsing runs of stars keeps what a sequence matches. */
  lemma {:induction false} CollapseMeansTheSame(ts: seq<Tok>, rest: seq<Tok>, k: string)
    ensures Accepts(Collapse(ts) + rest, k) <==> Accepts(ts + rest, k)
    decreases |ts|
  {
    if ts != [] {
      var init, last := ts[..|ts| - 1], ts[|ts| - 1];
      PushMeansTheSame(Collapse(init), last, rest, k);
      assert Collapse(init) + [last] + rest == Collapse(init) + ([last] + rest);
      CollapseMeansTheSame(init, [last] + rest, k);
      assert ts + rest == init + ([last] + rest);
    }
  }

  // ── Compiling ─────────────────────────────────────────────────────────────

  /** The class loop of `Glob::new`. */
  method CompileClass(p: string, start: nat) returns (ranges: seq<Range>, i: nat)
    requires start <= |p|
    ensures Ranges(ranges, i) == ClassFrom(p, start)
  {
    hide ClassFrom;
    i := start;
    ranges := [];
    ghost var whole := ClassFrom(p, start);
    while i < |p|
      invariant start <= i <= |p| && whole.rest == ClassFrom(p, i).rest
      invariant whole.ranges == ranges + ClassFrom(p, i).ranges
    {
      ClassStep(p, i, ranges);
      if p[i] == ']' {
        i := i + 1;
        return;
      } else if p[i] == '\\' && i + 1 < |p| {
        ranges := ranges + [Range(p[i + 1], p[i + 1])];
        i := i + 2;
      } else if i + 2 < |p| && p[i + 1] == '-' && p[i + 2] != ']' {
        var lo, hi := p[i], p[i + 2];
        ranges := ranges + [if lo <= hi then Range(lo, hi) else Range(hi, lo)];
        i := i + 3;
      } else {
        ranges := ranges + [Range(p[i], p[i])];
        i := i + 1;
      }
    }
    ClassEnd(p, ranges);
  }

  lemma ClassStep(p: string, i: nat, ranges: seq<Range>)
    requires i < |p|
    ensures p[i] == ']' ==> ClassFrom(p, i) == Ranges([], i + 1) && ranges + ClassFrom(p, i).ranges == ranges
    ensures p[i] != ']' ==>
              var m := ItemAt(p, i);
              && ClassFrom(p, i).rest == ClassFrom(p, m.rest).rest
              && ranges + ClassFrom(p, i).ranges == ranges + [m.range] + ClassFrom(p, m.rest).ranges
  {}

  lemma ClassEnd(p: string, ranges: seq<Range>)
    ensures ClassFrom(p, |p|) == Ranges([], |p|) && ranges + ClassFrom(p, |p|).ranges == ranges
  {}

  lemma LexPrefix(p: string, done: seq<Tok>, i: nat)
    requires i < |p| && Lex(p, 0) == done + Lex(p, i)
    ensures Lex(p, 0) == done + [First(p, i).tok] + Lex(p, First(p, i).rest)
  {}

  /** One round of `Glob::new`: the token at `start`. */
  method NextTok(p: string, start: nat) returns (tok: Tok, i: nat)
    requires start < |p|
    ensures Lexed(tok, i) == First(p, start)
  {
    i := start;
    if p[i] == '*' {
      tok := Star;
      i := i + 1;
    } else if p[i] == '?' {
      tok := Any;
      i := i + 1;
    } else if p[i] == '[' {
      i := i + 1;
      var negate := i < |p| && p[i] == '^';
      if negate {
        i := i + 1;
      }
      var ranges;
      ranges, i := CompileClass(p, i);
      tok := Class(negate, ranges);
    } else if p[i] == '\\' && i + 1 < |p| {
      tok := Lit(p[i + 1]);
      i := i + 2;
    } else {
      tok := Lit(p[i]);
      i := i + 1;
    }
  }

  lemma {:induction false} CollapsePush(ts: seq<Tok>, t: Tok)
    ensures Collapse(ts + [t]) == Push(Collapse(ts), t)
  {
    assert (ts + [t])[..|ts|] == ts;
  }

  /** `Glob::new`: the pattern's tokens, runs of stars collapsed. */
  method Compile(p: string) returns (toks: seq<Tok>)
    ensures toks == Collapse(Lex(p, 0))
  {
    hide First, Collapse;
    toks := [];
    var i := 0;
    ghost var done: seq<Tok> := [];
    CollapseNothing();
    while i < |p|
      invariant i <= |p| && Lex(p, 0) == done + Lex(p, i) && toks == Collapse(done)
    {
      LexPrefix(p, done, i);
      var tok, rest := NextTok(p, i);
      if !(tok.Star? && toks != [] && toks[|toks| - 1].Star?) {
        toks := toks + [tok];
      }
      CollapsePush(done, tok);
      done := done + [tok];
      i := rest;
    }
    assert done == Lex(p, 0);
  }

  lemma CollapseNothing()
    ensures Collapse([]) == []
  {}

  // ── Matching ──────────────────────────────────────────────────────────────

  predicate AllStars(t: seq<Tok>) {
    forall i | 0 <= i < |t| :: t[i].Star?
  }

  lemma {:induction false} NothingLeft(t: seq<Tok>)
    ensures Accepts(t, "") <==> AllStars(t)
  {
    if t != [] {
      NothingLeft(t[1..]);
      assert ""[0..] == "";
      if AllStars(t) {
        assert Accepts(t[1..], ""[0..]);
      }
      if t[0].Star? && AllStars(t[1..]) {
        assert forall i | 0 < i < |t| :: t[i] == t[1..][i - 1];
      }
    }
  }

  /** The tokens from `after` to `ti` match the key from `end`, one each. */
  predicate Segment(t: seq<Tok>, k: string, after: nat, ti: nat, end: nat)
    requires after <= ti <= |t| && end + (ti - after) <= |k|
  {
    forall j | after <= j < ti :: !t[j].Star? && TokMatches(t[j], k[end + (j - after)])
  }

  /** A matched segment can be taken off both. */
  lemma {:induction false} SegmentOff(t: seq<Tok>, k: string, after: nat, ti: nat, end: nat)
    requires after <= ti <= |t| && end + (ti - after) <= |k| && Segment(t, k, after, ti, end)
    ensures Accepts(t[after..], k[end..]) <==> Accepts(t[ti..], k[end + (ti - after)..])
    decreases ti - after
  {
    if after < ti {
      assert t[after..][1..] == t[after + 1..] && k[end..][1..] == k[end + 1..];
      SegmentOff(t, k, after + 1, ti, end + 1);
    }
  }

  /** Tokens that are no stars take a character each. */
  lemma {:induction false} TakesOneEach(t: seq<Tok>, after: nat, ti: nat, k: string)
    requires after <= ti <= |t| && (forall j | after <= j < ti :: !t[j].Star?) && Accepts(t[after..], k)
    ensures ti - after <= |k| && Accepts(t[ti..], k[ti - after..])
    decreases ti - after
  {
    if after < ti {
      assert t[after..][1..] == t[after + 1..];
      TakesOneEach(t, after + 1, ti, k[1..]);
      assert k[1..][ti - after - 1..] == k[ti - after..];
    } else {
      assert k[0..] == k;
    }
  }

  /** A star followed by a segment matched where it may first lie, then a star: the first star need take no more. */
  lemma {:induction false} StarAfterSegment(t: seq<Tok>, k: string, after: nat, ti: nat, end: nat)
    requires 1 <= after <= ti < |t| && end + (ti - after) <= |k| && Segment(t, k, after, ti, end)
    requires t[after - 1].Star? && t[ti].Star?
    ensures Accepts(t[after - 1..], k[end..]) <==> Accepts(t[ti..], k[end + (ti - after)..])
  {
    var star, from := t[after - 1..], k[end..];
    var n := ti - after;
    assert star[1..] == t[after..];
    SegmentOff(t, k, after, ti, end);
    if Accepts(t[ti..], k[end + n..]) {
      assert from[0..] == from;
      assert Accepts(star[1..], from[0..]);
    }
    if Accepts(star, from) {
      var j :| 0 <= j <= |from| && Accepts(star[1..], from[j..]);
      TakesOneEach(t, after, ti, from[j..]);
      assert from[j..][n..] == k[end + n..][j..];
      StarAbsorbs(t[ti..], k[end + n..], j);
    }
  }

  /** When the rest of a pattern cannot follow the last star here, the star takes one more character. */
  lemma {:induction false} StarTakesOne(t: seq<Tok>, k: string, after: nat, ti: nat, end: nat)
    requires 1 <= after <= ti <= |t| && end + (ti - after) < |k| && Segment(t, k, after, ti, end)
    requires t[after - 1].Star?
    requires ti < |t| ==> !t[ti].Star? && !TokMatches(t[ti], k[end + (ti - after)])
    ensures Accepts(t[after - 1..], k[end..]) <==> Accepts(t[after - 1..], k[end + 1..])
  {
    var star, from := t[after - 1..], k[end..];
    assert star[1..] == t[after..];
    SegmentOff(t, k, after, ti, end);
    assert !Accepts(t[after..], from);
    if Accepts(star, from) {
      var j :| 0 <= j <= |from| && Accepts(star[1..], from[j..]);
      assert from[0..] == from;
      assert j > 0;
      assert from[j..] == k[end + 1..][j - 1..];
    }
    if Accepts(star, k[end + 1..]) {
      assert from[1..] == k[end + 1..];
      StarAbsorbs(star, from, 1);
    }
  }

  /** At the key's end, the segment after the last star has taken all the star left. */
  lemma {:induction false} StarAtEnd(t: seq<Tok>, k: string, after: nat, ti: nat, end: nat)
    requires 1 <= after <= ti <= |t| && end + (ti - after) == |k| && Segment(t, k, after, ti, end)
    requires t[after - 1].Star?
    ensures Accepts(t[after - 1..], k[end..]) <==> AllStars(t[ti..])
  {
    var star, from := t[after - 1..], k[end..];
    assert star[1..] == t[after..];
    SegmentOff(t, k, after, ti, end);
    NothingLeft(t[ti..]);
    assert k[|k|..] == "" && from[0..] == from;
    if Accepts(star, from) {
      var j :| 0 <= j <= |from| && Accepts(star[1..], from[j..]);
      TakesOneEach(t, after, ti, from[j..]);
      assert j == 0;
    }
    if AllStars(t[ti..]) {
      assert Accepts(star[1..], from[0..]);
    }
  }

  datatype Resume = Resume(after: nat, end: nat)

  /** What is left to match, given the last star and where its match ends. */
  predicate Left(t: seq<Tok>, k: string, ti: nat, ki: nat, resume: Option<Resume>) {
    && ti <= |t| && ki <= |k|
    && match resume
       case None => ti == ki && (Accepts(t, k) <==> Accepts(t[ti..], k[ki..]))
       case Some(r) =>
         && 1 <= r.after <= ti && r.end <= ki && ki - r.end == ti - r.after
         && t[r.after - 1].Star? && Segment(t, k, r.after, ti, r.end)
         && (Accepts(t, k) <==> Accepts(t[r.after - 1..], k[r.end..]))
  }

  /** A star reached: what is left is the star and what follows it, against the rest of the key. */
  lemma {:induction false} AtStar(t: seq<Tok>, k: string, ti: nat, ki: nat, resume: Option<Resume>)
    requires Left(t, k, ti, ki, resume) && ti < |t| && t[ti].Star?
    ensures Left(t, k, ti + 1, ki, Some(Resume(ti + 1, ki)))
  {
    if resume.Some? {
      StarAfterSegment(t, k, resume.value.after, ti, resume.value.end);
    }
  }

  lemma {:induction false} AtMatch(t: seq<Tok>, k: string, ti: nat, ki: nat, resume: Option<Resume>)
    requires Left(t, k, ti, ki, resume) && ti < |t| && ki < |k| && !t[ti].Star? && TokMatches(t[ti], k[ki])
    ensures Left(t, k, ti + 1, ki + 1, resume)
  {
    assert t[ti..][1..] == t[ti + 1..] && k[ki..][1..] == k[ki + 1..];
  }

  /** The bound on the loop: each round moves the star's end on, or the token. */
  function Rank(t: seq<Tok>, ti: nat, resume: Option<Resume>): nat {
    (if resume.Some? then resume.value.end else 0) * (|t| + 1) + ti
  }

  lemma {:induction false} Grows(width: nat, was: nat, ti: nat, now: nat, ti': nat)
    requires ti < width && ((was == now && ti < ti') || was < now)
    ensures was * width + ti < now * width + ti'
  {
    if was < now {
      assert now * width >= (was + 1) * width == was * width + width;
    }
  }

  lemma {:induction false} RankGrows(t: seq<Tok>, ti: nat, resume: Option<Resume>, ti': nat, resume': Option<Resume>)
    requires ti <= |t|
    requires
      var was := if resume.Some? then resume.value.end else 0;
      var now := if resume'.Some? then resume'.value.end else 0;
      (was == now && ti < ti') || was < now
    ensures Rank(t, ti, resume) < Rank(t, ti', resume')
  {
    var was := if resume.Some? then resume.value.end else 0;
    var now := if resume'.Some? then resume'.value.end else 0;
    Grows(|t| + 1, was, ti, now, ti');
  }

  function Bound(t: seq<Tok>, k: string): nat {
    (|t| + 1) * (|k| + 1)
  }

  lemma {:induction false} RankBound(t: seq<Tok>, k: string, ti: nat, ki: nat, resume: Option<Resume>)
    requires Left(t, k, ti, ki, resume)
    ensures Rank(t, ti, resume) < Bound(t, k)
  {
    var end := if resume.Some? then resume.value.end else 0;
    assert end * (|t| + 1) <= |k| * (|t| + 1);
    assert (|t| + 1) * (|k| + 1) == |k| * (|t| + 1) + |t| + 1;
  }

  /** No token matches here: the last star takes one more character, and what follows it starts again. */
  lemma {:induction false} AtRetry(t: seq<Tok>, k: string, ti: nat, ki: nat, r: Resume)
    requires Left(t, k, ti, ki, Some(r)) && ki < |k| && (ti < |t| ==> !t[ti].Star? && !TokMatches(t[ti], k[ki]))
    ensures Left(t, k, r.after, r.end + 1, Some(Resume(r.after, r.end + 1)))
  {
    StarTakesOne(t, k, r.after, ti, r.end);
  }

  lemma {:induction false} AtEnd(t: seq<Tok>, k: string, ti: nat, resume: Option<Resume>)
    requires Left(t, k, ti, |k|, resume)
    ensures Accepts(t, k) <==> AllStars(t[ti..])
  {
    if resume.Some? {
      StarAtEnd(t, k, resume.value.after, ti, resume.value.end);
    } else {
      NothingLeft(t[ti..]);
      assert k[|k|..] == "";
    }
  }

  lemma {:induction false} AtStart(t: seq<Tok>, k: string)
    ensures Left(t, k, 0, 0, None) && Rank(t, 0, None) == 0
  {
    assert t[0..] == t && k[0..] == k;
  }

  /** `Glob::matches`. */
  method Matches(t: seq<Tok>, k: string) returns (ok: bool, ghost rounds: nat)
    ensures ok <==> Accepts(t, k)
    ensures rounds < Bound(t, k)
  {
    hide Accepts, Left, Rank, Bound, TokMatches;
    var ti: nat, ki: nat := 0, 0;
    var resume: Option<Resume> := None;
    rounds := 0;
    AtStart(t, k);
    while ki < |k|
      invariant ti <= |t| && ki <= |k| && Left(t, k, ti, ki, resume)
      invariant resume.Some? ==> resume.value.end <= ki && resume.value.after <= |t|
      invariant rounds <= Rank(t, ti, resume)
      decreases Bound(t, k) - Rank(t, ti, resume)
    {
      rounds := rounds + 1;
      RankBound(t, k, ti, ki, resume);
      if ti < |t| && t[ti].Star? {
        AtStar(t, k, ti, ki, resume);
        StarRank(t, k, ti, ki, resume);
        ti := ti + 1;
        resume := Some(Resume(ti, ki));
      } else if ti < |t| && TokMatches(t[ti], k[ki]) {
        AtMatch(t, k, ti, ki, resume);
        RankGrows(t, ti, resume, ti + 1, resume);
        ti, ki := ti + 1, ki + 1;
      } else if resume.Some? {
        var r := resume.value;
        AtRetry(t, k, ti, ki, r);
        RankGrows(t, ti, resume, r.after, Some(Resume(r.after, r.end + 1)));
        resume := Some(Resume(r.after, r.end + 1));
        ti, ki := r.after, r.end + 1;
      } else {
        Stuck(t, k, ti, ki);
        StuckBound(t, k, ti);
        return false, rounds;
      }
    }
    AtEnd(t, k, ti, resume);
    RankBound(t, k, ti, ki, resume);
    ok := forall i | ti <= i < |t| :: t[i].Star?;
    StarsLeft(t, ti);
  }

  lemma {:induction false} StarsLeft(t: seq<Tok>, ti: nat)
    requires ti <= |t|
    ensures AllStars(t[ti..]) <==> forall i | ti <= i < |t| :: t[i].Star?
  {
    if AllStars(t[ti..]) {
      assert forall i | ti <= i < |t| :: t[i] == t[ti..][i - ti];
    }
  }

  /** The key index never falls behind the last star's end, so a star moves the rank on. */
  lemma {:induction false} StarRank(t: seq<Tok>, k: string, ti: nat, ki: nat, resume: Option<Resume>)
    requires Left(t, k, ti, ki, resume) && ti < |t|
    ensures Rank(t, ti, resume) < Rank(t, ti + 1, Some(Resume(ti + 1, ki)))
  {
    RankGrows(t, ti, resume, ti + 1, Some(Resume(ti + 1, ki)));
  }

  lemma {:induction false} StuckBound(t: seq<Tok>, k: string, ti: nat)
    requires ti <= |t| && |k| >= 1
    ensures Rank(t, ti, None) + 1 < Bound(t, k)
  {
    assert (|t| + 1) * (|k| + 1) >= (|t| + 1) * 2;
  }

  lemma Stuck(t: seq<Tok>, k: string, ti: nat, ki: nat)
    requires Left(t, k, ti, ki, None) && ki < |k| && (ti < |t| ==> !t[ti].Star? && !TokMatches(t[ti], k[ki]))
    ensures !Accepts(t, k)
  {}

  /** A pattern compiled and matched answers as the recursive matcher does, on every pattern and key. */
  method PatternMatches(p: string, k: string) returns (ok: bool, ghost toks: nat, ghost rounds: nat)
    ensures ok <==> Go(p, 0, k)
    ensures toks <= |p| && rounds < (toks + 1) * (|k| + 1)
  {
    var t := Compile(p);
    CompiledMeansTheSame(p, k);
    CompiledLength(p);
    toks := |t|;
    ok, rounds := Matches(t, k);
  }

  lemma {:induction false} CompiledMeansTheSame(p: string, k: string)
    ensures Accepts(Collapse(Lex(p, 0)), k) <==> Go(p, 0, k)
  {
    LexedMeansTheSame(p, 0, k);
    CollapseMeansTheSame(Lex(p, 0), [], k);
    assert Lex(p, 0) + [] == Lex(p, 0) && Collapse(Lex(p, 0)) + [] == Collapse(Lex(p, 0));
  }

  lemma {:induction false} LexLength(p: string, i: nat)
    requires i <= |p|
    ensures |Lex(p, i)| <= |p| - i
    decreases |p| - i
  {
    if i < |p| {
      LexLength(p, First(p, i).rest);
    }
  }

  lemma {:induction false} CollapseLength(ts: seq<Tok>)
    ensures |Collapse(ts)| <= |ts|
  {
    if ts != [] {
      CollapseLength(ts[..|ts| - 1]);
    }
  }

  lemma {:induction false} CompiledLength(p: string)
    ensures |Collapse(Lex(p, 0))| <= |p|
  {
    LexLength(p, 0);
    CollapseLength(Lex(p, 0));
  }
}
