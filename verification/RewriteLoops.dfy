/** `rewrite_video_batch` as the source runs it: three loops over vectors, checked against
    `Rewrite.Result`. */
module RewriteLoops {
  import opened Words
  import opened Seqs
  import opened Sideband
  import opened Rewrite

  /** The rewriter's reading of one header: its packet's size, or 0 to refuse the batch. */
  method ReadHeader(h: word, last: bool) returns (n: nat)
    ensures n == if Type(h) == 0 && Opcode(h) == 10 && !last then 0 else AuditedLength(h)
    ensures n ==
            if h / 0x80_0000 in {32, 36, 38, 46} then h % 64 + 2
            else if h / 0x80_0000 == 0 || (h / 0x80_0000 == 10 && last) || h / 0x1_0000 == 0x6800 then 1
            else if h / 0x2000_0000 == 3 then h % 4096 + 2
            else 0
  {
    if Type(h) == 0 {
      if Opcode(h) == 0 || Opcode(h) == 10 {
        n := 1;
      } else if Opcode(h) == 32 || Opcode(h) == 36 || Opcode(h) == 38 || Opcode(h) == 46 {
        n := h % 64 + 2;
      } else {
        return 0;
      }
      if Opcode(h) == 10 && !last { return 0; }
    } else if IsWait(h) {
      n := 1;
    } else if Type(h) == 3 {
      n := h % 4096 + 2;
    } else {
      return 0;
    }
  }

  /** `marks` are the packet starts of `c` before word i, and the walk goes on from there. */
  ghost predicate Marked(c: seq<word>, marks: seq<bool>, i: nat)
    requires i <= |c| == |marks|
  {
    (WalkOk(c) <==> WalkOk(c[i..])) &&
    (forall q :: 0 <= q < i ==> (marks[q] <==> IsStart(c, q))) &&
    (forall q :: i <= q < |c| ==> !marks[q] && (IsStart(c, q) <==> IsStart(c[i..], q - i)))
  }

  lemma MarkStep(c: seq<word>, marks: seq<bool>, i: nat, n: nat)
    requires i < |c| == |marks| && Marked(c, marks, i)
    requires 0 < n == AuditedLength(c[i]) <= |c| - i && (Type(c[i]) == 0 && Opcode(c[i]) == 10 ==> i + 1 == |c|)
    ensures Marked(c, marks[i := true], i + n)
  {
    var s := c[i..];
    CutDrop(c, i, n);
    assert s[0] == c[i] && s[n..] == c[i + n..];
    assert WalkOk(s) <==> WalkOk(s[n..]);
    forall q | i <= q < |c|
      ensures IsStart(c, q) <==> q == i || (i + n <= q && IsStart(s[n..], q - (i + n)))
    {
      assert IsStart(c, q) <==> IsStart(s, q - i);
      assert q != i ==> (IsStart(s, q - i) <==> n <= q - i && IsStart(s[n..], q - i - n));
    }
  }

  lemma WalkStops(c: seq<word>, i: nat)
    requires i < |c| && (WalkOk(c) <==> WalkOk(c[i..]))
    requires var n := AuditedLength(c[i]);
             n == 0 || n > |c| - i || (Type(c[i]) == 0 && Opcode(c[i]) == 10 && i + 1 != |c|)
    ensures !WalkOk(c)
  {
    assert c[i..][0] == c[i];
  }

  /** The packet walk; `boundary` marks the words a packet starts at. */
  method MarkBoundaries(c: seq<word>) returns (ok: bool, boundary: array<bool>)
    ensures ok <==> WalkOk(c)
    ensures fresh(boundary) && boundary.Length == |c|
    ensures ok ==> forall q :: 0 <= q < |c| ==> (boundary[q] <==> IsStart(c, q))
  {
    boundary := new bool[|c|](_ => false);
    var i := 0;
    assert c[0..] == c;
    while i < |c|
      invariant 0 <= i <= |c| && Marked(c, boundary[..], i)
    {
      var n := ReadHeader(c[i], i + 1 == |c|);
      if n == 0 || n > |c| - i {
        WalkStops(c, i);
        return false, boundary;
      }
      MarkStep(c, boundary[..], i, n);
      boundary[i] := true;
      i := i + n;
    }
    assert c[i..] == [];
    ok := true;
  }

  /** Words pos..to move to the end of `rebuilt`, and the map remembers where. */
  method CopyWords(c: seq<word>, map_: array<Option<int>>, pos: nat, to: nat,
      rebuilt: seq<word>) returns (out: seq<word>)
    requires pos <= to <= |c| == map_.Length
    modifies map_
    ensures out == rebuilt + c[pos..to]
    ensures forall q :: 0 <= q < |c| ==> map_[q] == if pos <= q < to then Some(|rebuilt| + q - pos) else old(map_[q])
  {
    out := rebuilt;
    var i := pos;
    while i < to
      invariant pos <= i <= to && out == rebuilt + c[pos..i]
      invariant forall q :: 0 <= q < |c| ==> map_[q] == if pos <= q < i then Some(|rebuilt| + q - pos) else old(map_[q])
    {
      map_[i] := Some(|out|);
      out := out + [c[i]];
      i := i + 1;
    }
  }

  /** `m` is the position map below `pos` and empty above it; `rest` are the replacements to come,
      to be put after `base` rebuilt words. */
  ghost predicate Mapped(m: seq<Option<int>>, reps: seq<Replacement>, rest: seq<Replacement>, pos: nat, base: nat)
  {
    (forall q :: 0 <= q < pos <= |m| ==> m[q] == NewAt(reps, 0, 0, q)) &&
    (forall q :: pos <= q < |m| ==> m[q] == None && NewAt(reps, 0, 0, q) == NewAt(rest, pos, base, q))
  }

  /** One replacement's effect on the map. */
  ghost predicate MapsOne(m: seq<Option<int>>, m': seq<Option<int>>, r: Replacement, pos: nat, base: nat)
  {
    |m'| == |m| &&
    forall q :: 0 <= q < |m| ==>
      m'[q] ==
        if pos <= q < r.at then Some(base + q - pos)
        else if r.at <= q < End(r) then
          (match Lookup(r.addresses, q - r.at) {
             case None => None
             case Some(d) => Some(base + r.at - pos + |r.before| + d)
           })
        else m[q]
  }

  lemma MapStep(m: seq<Option<int>>, m': seq<Option<int>>, reps: seq<Replacement>, rest: seq<Replacement>, pos: nat,
                base: nat)
    requires rest != [] && pos <= rest[0].at < End(rest[0]) <= |m|
    requires Mapped(m, reps, rest, pos, base) && MapsOne(m, m', rest[0], pos, base)
    ensures Mapped(m', reps, rest[1..], End(rest[0]), base + rest[0].at - pos + |rest[0].before| + |rest[0].words|)
  {
  }

  /** The rebuilt words so far and those to come make the whole body, if the rest is in order. */
  ghost predicate Building(c: seq<word>, reps: seq<Replacement>, rest: seq<Replacement>, pos: nat, rebuilt: seq<word>)
    requires pos <= |c|
  {
    (Ordered(|c|, reps, 0) <==> Ordered(|c|, rest, pos)) &&
    (Ordered(|c|, reps, 0) ==> Body(c, reps, 0) == rebuilt + Body(c[pos..], rest, pos))
  }

  lemma BuildStep(c: seq<word>, reps: seq<Replacement>, rest: seq<Replacement>, pos: nat, rebuilt: seq<word>)
    requires pos <= |c| && rest != [] && pos <= rest[0].at < End(rest[0]) <= |c|
    requires Building(c, reps, rest, pos, rebuilt)
    ensures Building(c, reps, rest[1..], End(rest[0]), rebuilt + c[pos..rest[0].at] + rest[0].before + rest[0].words)
  {
    if Ordered(|c|, rest, pos) {
      BodyAt(c, rest, pos);
      AssocFive(rebuilt, c[pos..rest[0].at], rest[0].before, rest[0].words,
          Body(c[End(rest[0])..], rest[1..], End(rest[0])));
    }
  }

  lemma BodyAt(c: seq<word>, rest: seq<Replacement>, pos: nat)
    requires pos <= |c| && rest != [] && Ordered(|c|, rest, pos)
    ensures Body(c[pos..], rest, pos)
            == c[pos..rest[0].at] + (rest[0].before + (rest[0].words + Body(c[End(rest[0])..], rest[1..],
                End(rest[0]))))
  {
    CutDrop(c, pos, End(rest[0]) - pos);
    assert c[pos..][..rest[0].at - pos] == c[pos..rest[0].at];
  }

  lemma AssocFive(a: seq<word>, b: seq<word>, c: seq<word>, d: seq<word>, e: seq<word>)
    ensures a + (b + (c + (d + e))) == a + b + c + d + e
  {
  }

  /** The source's tests of one replacement, before its addresses. */
  predicate ShapeOk(c: seq<word>, boundary: seq<bool>, r: Replacement, pos: nat)
    requires |boundary| == |c|
  {
    pos <= r.at < |c| && r.size > 0 && boundary[r.at] && r.size <= |c| - r.at && r.words != [] &&
    Type(c[r.at]) == 3 && Type(r.words[0]) == 3 && c[r.at] / 0x1_0000 == r.words[0] / 0x1_0000 &&
    c[r.at] % 4096 + 2 == r.size && r.words[0] % 4096 + 2 == |r.words|
  }

  lemma ShapeFails(c: seq<word>, boundary: seq<bool>, rest: seq<Replacement>, pos: nat)
    requires |boundary| == |c| && forall q :: 0 <= q < |c| ==> (boundary[q] <==> IsStart(c, q))
    requires rest != [] && !(ShapeOk(c, boundary, rest[0], pos) && BeforeOk(c[rest[0].at], rest[0].before) &&
             AddressesOk(rest[0]))
    ensures !(Ordered(|c|, rest, pos) && ReplacementOk(c, rest[0]))
  {
  }

  /** One replacement: copy the words before it, then its prolog, addresses and new packet. */
  method SpliceOne(c: seq<word>, boundary: array<bool>, map_: array<Option<int>>, r: Replacement, pos: nat,
      rebuilt: seq<word>)
    returns (ok: bool, out: seq<word>)
    requires pos <= |c| == boundary.Length == map_.Length
    requires forall q :: pos <= q < |c| ==> map_[q] == None
    modifies map_
    ensures ok <==> ShapeOk(c, boundary[..], r, pos) && BeforeOk(c[r.at], r.before) && AddressesOk(r)
    ensures ok ==> out == rebuilt + c[pos..r.at] + r.before + r.words
    ensures ok ==> MapsOne(old(map_[..]), map_[..], r, pos, |rebuilt|)
  {
    if !ShapeOk(c, boundary[..], r, pos) || !BeforeOk(c[r.at], r.before) { return false, rebuilt; }
    out := CopyWords(c, map_, pos, r.at, rebuilt);
    out := out + r.before;
    ok := DeclareAddresses(map_, r.at, |out|, r);
    out := out + r.words;
  }

  /** The same, among all the replacements. */
  method SpliceNext(c: seq<word>, boundary: array<bool>, map_: array<Option<int>>, r: Replacement, pos: nat,
                    rebuilt: seq<word>, ghost reps: seq<Replacement>, ghost rest: seq<Replacement>)
    returns (ok: bool, out: seq<word>)
    requires pos <= |c| == boundary.Length == map_.Length && rest != [] && rest[0] == r
    requires forall q :: 0 <= q < |c| ==> (boundary[q] <==> IsStart(c, q))
    requires Building(c, reps, rest, pos, rebuilt) && Mapped(map_[..], reps, rest, pos, |rebuilt|)
    modifies map_
    ensures ok ==> ReplacementOk(c, r) && End(r) <= |c| && Building(c, reps, rest[1..], End(r), out)
    ensures ok ==> Mapped(map_[..], reps, rest[1..], End(r), |out|)
    ensures !ok ==> !(Ordered(|c|, rest, pos) && ReplacementOk(c, r))
  {
    ghost var m := map_[..];
    ok, out := SpliceOne(c, boundary, map_, r, pos, rebuilt);
    if ok {
      BuildStep(c, reps, rest, pos, rebuilt);
      MapStep(m, map_[..], reps, rest, pos, |rebuilt|);
    } else {
      ShapeFails(c, boundary[..], rest, pos);
    }
  }

  /** The first k replacements are good. */
  ghost predicate FirstOk(c: seq<word>, reps: seq<Replacement>, k: nat) {
    k <= |reps| && forall i :: 0 <= i < k ==> ReplacementOk(c, reps[i])
  }

  /** The splice with its position map. */
  method Splice(c: seq<word>, capacity: nat, boundary: array<bool>, reps: seq<Replacement>)
    returns (ok: bool, map_: array<Option<int>>, rebuilt: seq<word>)
    requires boundary.Length == |c| && forall q :: 0 <= q < |c| ==> (boundary[q] <==> IsStart(c, q))
    ensures fresh(map_) && map_.Length == |c|
    ensures ok <==> ReplacementsOk(c, reps) && |Body(c, reps, 0)| <= capacity
    ensures ok ==> rebuilt == Body(c, reps, 0) && map_[..] == PositionMap(c, reps)
  {
    map_ := new Option<int>[|c|](_ => None);
    rebuilt := [];
    var pos, k := 0, 0;
    assert c[0..] == c && reps[0..] == reps;
    while k < |reps|
      invariant 0 <= k <= |reps| && 0 <= pos <= |c|
      invariant FirstOk(c, reps, k)
      invariant Building(c, reps, reps[k..], pos, rebuilt)
      invariant Mapped(map_[..], reps, reps[k..], pos, |rebuilt|)
    {
      ghost var before := rebuilt;
      var one;
      one, rebuilt := SpliceNext(c, boundary, map_, reps[k], pos, rebuilt, reps, reps[k..]);
      if !one {
        SpliceRefused(c, reps, k, pos, before);
        return false, map_, rebuilt;
      }
      FirstMore(c, reps, k);
      pos := End(reps[k]);
      k := k + 1;
      if |rebuilt| > capacity {
        SpliceTooLong(c, reps, reps[k..], pos, rebuilt, capacity);
        return false, map_, rebuilt;
      }
    }
    assert reps[k..] == [];
    SpliceEnds(c, reps, pos, rebuilt);
    rebuilt := CopyWords(c, map_, pos, |c|, rebuilt);
    assert c[pos..] == c[pos..|c|];
    ok := |rebuilt| <= capacity;
  }

  lemma FirstMore(c: seq<word>, reps: seq<Replacement>, k: nat)
    requires FirstOk(c, reps, k) && k < |reps| && ReplacementOk(c, reps[k])
    ensures FirstOk(c, reps, k + 1) && reps[k..][1..] == reps[k + 1..]
  {
  }

  lemma SpliceRefused(c: seq<word>, reps: seq<Replacement>, k: nat, pos: nat, rebuilt: seq<word>)
    requires k < |reps| && pos <= |c| && Building(c, reps, reps[k..], pos, rebuilt)
    requires !(Ordered(|c|, reps[k..], pos) && ReplacementOk(c, reps[k]))
    ensures !ReplacementsOk(c, reps)
  {
    assert reps[k] in reps;
  }

  lemma SpliceTooLong(c: seq<word>, reps: seq<Replacement>, rest: seq<Replacement>, pos: nat, rebuilt: seq<word>,
                      capacity: nat)
    requires pos <= |c| && Building(c, reps, rest, pos, rebuilt) && |rebuilt| > capacity
    ensures !(ReplacementsOk(c, reps) && |Body(c, reps, 0)| <= capacity)
  {
  }

  lemma SpliceEnds(c: seq<word>, reps: seq<Replacement>, pos: nat, rebuilt: seq<word>)
    requires pos <= |c| && Building(c, reps, [], pos, rebuilt)
    requires FirstOk(c, reps, |reps|)
    ensures ReplacementsOk(c, reps) && Body(c, reps, 0) == rebuilt + c[pos..]
  {
  }

  /** The map of a replaced packet's words after these pairs. */
  ghost predicate Declared(m: seq<Option<int>>, pairs: seq<(nat, nat)>, pos: nat, start: nat, size: nat) {
    pos + size <= |m| && forall q :: pos <= q < pos + size ==>
      m[q] == match Lookup(pairs, q - pos) { case None => None case Some(d) => Some(start + d) }
  }

  /** These pairs lie inside the packets, and no old place is named twice. */
  ghost predicate GoodPairs(pairs: seq<(nat, nat)>, size: nat, words: nat) {
    (forall k :: 0 <= k < |pairs| ==> 0 < pairs[k].0 < size && 0 < pairs[k].1 < words) &&
    (forall i, j :: 0 <= i < j < |pairs| ==> pairs[i].0 != pairs[j].0)
  }

  lemma GoodMore(pairs: seq<(nat, nat)>, p: (nat, nat), size: nat, words: nat)
    requires GoodPairs(pairs, size, words)
    ensures GoodPairs(pairs + [p], size, words) <==> 0 < p.0 < size && 0 < p.1 < words && Lookup(pairs, p.0) == None
  {
    LookupSome(pairs, p.0);
    var more := pairs + [p];
    if GoodPairs(more, size, words) {
      assert more[|pairs|] == p;
      assert forall i :: 0 <= i < |pairs| ==> pairs[i] == more[i];
    }
  }

  lemma GoodAll(r: Replacement)
    ensures GoodPairs(r.addresses, r.size, |r.words|) <==> AddressesOk(r)
  {
    assert forall k :: 0 <= k < |r.addresses| ==> r.addresses[k] in r.addresses;
  }

  lemma BadPair(r: Replacement, k: nat)
    requires k <= |r.addresses| && !GoodPairs(r.addresses[..k], r.size, |r.words|)
    ensures !AddressesOk(r)
  {
    GoodAll(r);
    assert forall i :: 0 <= i < k ==> r.addresses[..k][i] == r.addresses[i];
  }

  lemma DeclareStep(m: seq<Option<int>>, pairs: seq<(nat, nat)>, p: (nat, nat), pos: nat, start: nat, size: nat)
    requires Declared(m, pairs, pos, start, size) && p.0 < size && m[pos + p.0] == None
    ensures Declared(m[pos + p.0 := Some(start + p.1)], pairs + [p], pos, start, size)
  {
    var m' := m[pos + p.0 := Some(start + p.1)];
    forall q | pos <= q < pos + size
      ensures m'[q] == match Lookup(pairs + [p], q - pos) { case None => None case Some(d) => Some(start + d) }
    {
      LookupSnoc(pairs, p, q - pos);
    }
  }

  /** The inner loop over a replacement's address pairs, at the old packet's start `pos`. */
  method DeclareAddresses(map_: array<Option<int>>, pos: nat, start: nat, r: Replacement) returns (ok: bool)
    requires pos + r.size <= map_.Length
    requires forall q :: pos <= q < map_.Length ==> map_[q] == None
    modifies map_
    ensures ok <==> AddressesOk(r)
    ensures forall q :: 0 <= q < map_.Length && !(pos <= q < pos + r.size) ==> map_[q] == old(map_[q])
    ensures ok ==> forall q :: pos <= q < pos + r.size ==>
                     map_[q] == match Lookup(r.addresses, q - pos) { case None => None case Some(d) => Some(start + d) }
  {
    var i := 0;
    assert r.addresses[..0] == [];
    while i < |r.addresses|
      invariant 0 <= i <= |r.addresses|
      invariant GoodPairs(r.addresses[..i], r.size, |r.words|)
      invariant forall q :: 0 <= q < map_.Length && !(pos <= q < pos + r.size) ==> map_[q] == old(map_[q])
      invariant Declared(map_[..], r.addresses[..i], pos, start, r.size)
    {
      var pair := r.addresses[i];
      GoodMore(r.addresses[..i], pair, r.size, |r.words|);
      assert r.addresses[..i + 1] == r.addresses[..i] + [pair];
      if pair.0 == 0 || pair.1 == 0 || pair.0 >= r.size || pair.1 >= |r.words| || map_[pos + pair.0] != None {
        BadPair(r, i + 1);
        return false;
      }
      DeclareStep(map_[..], r.addresses[..i], pair, pos, start, r.size);
      map_[pos + pair.0] := Some(start + pair.1);
      i := i + 1;
    }
    assert r.addresses[..i] == r.addresses;
    GoodAll(r);
    ok := true;
  }

  lemma {:induction false} LookupSome(pairs: seq<(nat, nat)>, x: int)
    ensures Lookup(pairs, x).Some? <==> exists i :: 0 <= i < |pairs| && pairs[i].0 == x
  {
    if pairs != [] {
      LookupSome(pairs[1..], x);
      if pairs[0].0 == x { assert Lookup(pairs, x).Some?; }
      assert forall i :: 1 <= i < |pairs| ==> pairs[i] == pairs[1..][i - 1];
    }
  }

  lemma {:induction false} LookupSnoc(pairs: seq<(nat, nat)>, p: (nat, nat), x: int)
    ensures Lookup(pairs + [p], x) ==
              if Lookup(pairs, x).Some? then Lookup(pairs, x) else if x == p.0 then Some(p.1) else None
  {
    if pairs != [] {
      assert (pairs + [p])[1..] == pairs[1..] + [p];
      LookupSnoc(pairs[1..], p, x);
    }
  }

  /** What the inner relocation loop requires of a block's body, and what it leaves there. */
  predicate BodyOk(m: seq<Option<int>>, body: seq<word>) {
    ParseRecords(body).Some? && forall r <- ParseRecords(body).value.0 :: TargetOk(m, r)
  }

  function RelocatedBody(m: seq<Option<int>>, body: seq<word>): seq<word>
    requires BodyOk(m, body)
  {
    EncodeRecords(RelocateRecords(m, ParseRecords(body).value.0)) + Zeros(ParseRecords(body).value.1)
  }

  lemma BodyZeros(m: seq<Option<int>>, body: seq<word>)
    requires AllZero(body)
    ensures BodyOk(m, body) && RelocatedBody(m, body) == body
  {
    assert ParseRecords(body) == Some(([], |body|));
    assert EncodeRecords([]) + Zeros(|body|) == body;
  }

  lemma BodyStep(m: seq<Option<int>>, body: seq<word>)
    requires !AllZero(body)
    ensures BodyOk(m, body) <==>
            |body| >= 5 && body[0] % 2 == 1 && TargetOk(m, RecordAt(body, 0)) && BodyOk(m, body[5..])
  {
    if |body| >= 5 && body[0] % 2 == 1 && ParseRecords(body[5..]).Some? {
      var rs := ParseRecords(body[5..]).value.0;
      assert ParseRecords(body) == Some(([RecordAt(body, 0)] + rs, ParseRecords(body[5..]).value.1));
      assert forall x :: x in [RecordAt(body, 0)] + rs <==> x == RecordAt(body, 0) || x in rs;
    }
  }

  lemma BodyWrites(m: seq<Option<int>>, body: seq<word>)
    requires |body| >= 5 && body[0] % 2 == 1 && TargetOk(m, RecordAt(body, 0))
    requires BodyOk(m, body) && BodyOk(m, body[5..])
    ensures RelocatedBody(m, body) == RelocateRecord(m, RecordAt(body, 0)).Words() + RelocatedBody(m, body[5..])
  {
    var rec := RecordAt(body, 0);
    var (rs, slack) := ParseRecords(body[5..]).value;
    ConsParts(rec, rs);
    assert RelocateRecords(m, [rec] + rs) == [RelocateRecord(m, rec)] + RelocateRecords(m, rs);
    EncodeRecordsCons(RelocateRecord(m, rec), RelocateRecords(m, rs), Zeros(slack));
  }

  /** Inside a block: the words lo..r are relocated, those from r on are as they were. */
  ghost predicate Partly(m: seq<Option<int>>, s0: seq<word>, s: seq<word>, lo: nat, r: nat, hi: nat) {
    lo <= r <= hi <= |s0| == |s| && s[..lo] == s0[..lo] && s[r..] == s0[r..] &&
    (BodyOk(m, s0[lo..hi]) <==> BodyOk(m, s0[r..hi])) &&
    (BodyOk(m, s0[lo..hi]) ==> RelocatedBody(m, s0[lo..hi]) == s[lo..r] + RelocatedBody(m, s0[r..hi]))
  }

  lemma PartlyAt(m: seq<Option<int>>, s0: seq<word>, s: seq<word>, lo: nat, r: nat, hi: nat)
    requires Partly(m, s0, s, lo, r, hi)
    ensures s[r..hi] == s0[r..hi] && (r < hi ==> s[r] == s0[r])
  {
    assert s[r..hi] == s[r..][..hi - r] && s0[r..hi] == s0[r..][..hi - r];
    assert r < hi ==> s[r] == s[r..][0] && s0[r] == s0[r..][0];
  }

  lemma PartlyStep(m: seq<Option<int>>, s0: seq<word>, s: seq<word>, lo: nat, r: nat, hi: nat)
    requires Partly(m, s0, s, lo, r, hi) && r + 5 <= hi && !AllZero(s0[r..hi]) && s0[r] % 2 == 1
    requires TargetOk(m, RecordAt(s0, r))
    ensures Partly(m, s0, s[r := RelocateRecord(m, RecordAt(s0, r)).head], lo, r + 5, hi)
  {
    var s' := s[r := RelocateRecord(m, RecordAt(s0, r)).head];
    BodyStep(m, s0[r..hi]);
    assert RecordAt(s0[r..hi], 0) == RecordAt(s0, r) && s0[r..hi][5..] == s0[r + 5..hi];
    assert s'[..lo] == s[..lo];
    assert s'[r + 5..] == s0[r + 5..] by { assert s[r..][5..] == s0[r..][5..]; }
    assert s'[lo..r + 5] == s[lo..r] + RelocateRecord(m, RecordAt(s0, r)).Words() by {
      assert forall k :: 0 <= k < 5 ==> s[r + k] == s[r..][k] == s0[r..][k] == s0[r + k];
    }
    if BodyOk(m, s0[lo..hi]) {
      BodyWrites(m, s0[r..hi]);
      Assoc(s[lo..r], RelocateRecord(m, RecordAt(s0, r)).Words(), RelocatedBody(m, s0[r + 5..hi]));
    }
  }

  lemma PartlyStops(m: seq<Option<int>>, s0: seq<word>, s: seq<word>, lo: nat, r: nat, hi: nat)
    requires Partly(m, s0, s, lo, r, hi) && r < hi && !AllZero(s0[r..hi])
    requires hi - r < 5 || s0[r] % 2 != 1 || !TargetOk(m, RecordAt(s0, r))
    ensures !BodyOk(m, s0[lo..hi])
  {
    BodyStep(m, s0[r..hi]);
    assert hi - r >= 5 ==> RecordAt(s0[r..hi], 0) == RecordAt(s0, r);
  }

  lemma PartlyEnds(m: seq<Option<int>>, s0: seq<word>, s: seq<word>, lo: nat, r: nat, hi: nat)
    requires Partly(m, s0, s, lo, r, hi) && AllZero(s0[r..hi])
    ensures BodyOk(m, s0[lo..hi]) && s[lo..hi] == RelocatedBody(m, s0[lo..hi]) && s[hi..] == s0[hi..]
  {
    BodyZeros(m, s0[r..hi]);
    assert s[r..hi] == s0[r..hi] && s[hi..] == s0[hi..] by {
      assert s[r..][..hi - r] == s0[r..][..hi - r] && s[r..][hi - r..] == s0[r..][hi - r..];
      TakeFrom(s, r, hi); TakeFrom(s0, r, hi);
    }
    Split(s, lo, r, hi);
  }

  lemma TakeFrom(s: seq<word>, r: nat, hi: nat)
    requires r <= hi <= |s|
    ensures s[r..][..hi - r] == s[r..hi] && s[r..][hi - r..] == s[hi..]
  {
  }

  /** The inner relocation loop over the words lo..hi of one block, in place. */
  method RelocateWords(s: array<word>, lo: nat, hi: nat, map_: array<Option<int>>) returns (ok: bool)
    requires lo <= hi <= s.Length
    modifies s
    ensures s[..lo] == old(s[..lo]) && (ok ==> s[hi..] == old(s[hi..]))
    ensures ok <==> BodyOk(map_[..], old(s[lo..hi]))
    ensures ok ==> s[lo..hi] == RelocatedBody(map_[..], old(s[lo..hi]))
  {
    ghost var s0, m := s[..], map_[..];
    assert s0[lo..hi] == s[lo..hi];
    var r := lo;
    while r < hi
      invariant Partly(m, s0, s[..], lo, r, hi)
    {
      PartlyAt(m, s0, s[..], lo, r, hi);
      assert s[r..hi] == s[..][r..hi];
      if AllZero(s[r..hi]) { break; }
      if hi - r < 5 || s[r] % 2 != 1 {
        PartlyStops(m, s0, s[..], lo, r, hi);
        return false;
      }
      var target := Target(s[r]);
      if target >= map_.Length || map_[target] == None || !(0 <= map_[target].value < FIELD) {
        PartlyStops(m, s0, s[..], lo, r, hi);
        return false;
      }
      PartlyStep(m, s0, s[..], lo, r, hi);
      s[r] := Retarget(s[r], map_[target].value);
      r := r + 5;
    }
    PartlyEnds(m, s0, s[..], lo, r, hi);
    ok := true;
  }

  // ---- the outer relocation loop ----

  /** What the relocation pass still requires of the blocks from a token on, once it has or has not
      `seen` the used-size token. */
  predicate SuffixOk(m: seq<Option<int>>, used: word, capacity: nat, seen: bool, tail: seq<word>) {
    ParseBlocks(tail).Some? &&
    var (bs, end) := ParseBlocks(tail).value;
    end == capacity && (forall b <- bs :: BlockOk(m, used, b)) && UsedTokens(bs) == if seen then 0 else 1
  }

  function RelocatedSuffix(m: seq<Option<int>>, used: word, newUsed: word, tail: seq<word>): seq<word>
    requires ParseBlocks(tail).Some? && forall b <- ParseBlocks(tail).value.0 :: BlockOk(m, used, b)
  {
    var (bs, end) := ParseBlocks(tail).value;
    BlocksValid(m, used, newUsed, tail);
    EncodeBlocks(RelocateBlocks(m, used, newUsed, bs)) + [TERMINAL, end]
  }

  lemma BlocksValid(m: seq<Option<int>>, used: word, newUsed: word, tail: seq<word>)
    requires ParseBlocks(tail).Some? && forall b <- ParseBlocks(tail).value.0 :: BlockOk(m, used, b)
    ensures forall b <- RelocateBlocks(m, used, newUsed, ParseBlocks(tail).value.0) :: b.Valid()
  {
    EncodeParseBlocks(tail);
    var bs := ParseBlocks(tail).value.0;
    forall i | 0 <= i < |bs| ensures BlockOk(m, used, bs[i]) && RelocateBlock(m, used, newUsed, bs[i]).Valid() {
      assert bs[i] in bs;
      RelocateBlockValid(m, used, newUsed, bs[i]);
    }
  }

  /** One block of the pass: what it requires. */
  lemma SuffixStep(m: seq<Option<int>>, used: word, capacity: nat, seen: bool, tail: seq<word>, n: nat)
    requires tail != [] && tail[0] != TERMINAL && n == tail[0] / 0x1_0000 && 2 <= n <= |tail|
    ensures SuffixOk(m, used, capacity, seen, tail) <==>
            ParseBlock(tail[..n]).Some? && var b := ParseBlock(tail[..n]).value;
            BlockOk(m, used, b) && !(seen && IsUsed(b)) && SuffixOk(m, used, capacity, seen || IsUsed(b), tail[n..])
  {
    if ParseBlocks(tail[n..]).Some? && ParseBlock(tail[..n]).Some? {
      var b := ParseBlock(tail[..n]).value;
      var bs := ParseBlocks(tail[n..]).value.0;
      ConsParts(b, bs);
      assert forall x :: x in [b] + bs <==> x == b || x in bs;
    }
  }

  /** ... and what it leaves. */
  lemma SuffixWrites(m: seq<Option<int>>, used: word, newUsed: word, capacity: nat, seen: bool, tail: seq<word>,
      n: nat, b: Block)
    requires tail != [] && tail[0] != TERMINAL && n == tail[0] / 0x1_0000 && 2 <= n <= |tail|
    requires ParseBlock(tail[..n]) == Some(b) && BlockOk(m, used, b)
    requires SuffixOk(m, used, capacity, seen, tail) && SuffixOk(m, used, capacity, seen || IsUsed(b), tail[n..])
    ensures b.Valid() && RelocateBlock(m, used, newUsed, b).Valid() &&
            RelocatedSuffix(m, used, newUsed, tail)
            == EncodeBlock(RelocateBlock(m, used, newUsed, b)) + RelocatedSuffix(m, used, newUsed, tail[n..])
  {
    var (bs, end) := ParseBlocks(tail[n..]).value;
    EncodeParseBlock(tail[..n]);
    BlocksValid(m, used, newUsed, tail[n..]);
    ConsWrites(m, used, newUsed, b, bs, [TERMINAL, end]);
  }

  lemma ConsWrites(m: seq<Option<int>>, used: word, newUsed: word, b: Block, bs: seq<Block>, tail: seq<word>)
    requires b.Valid() && BlockOk(m, used, b) && forall x <- bs :: BlockOk(m, used, x)
    requires forall x <- RelocateBlocks(m, used, newUsed, bs) :: x.Valid()
    ensures forall x <- [b] + bs :: BlockOk(m, used, x)
    ensures RelocateBlock(m, used, newUsed, b).Valid()
    ensures forall x <- RelocateBlocks(m, used, newUsed, [b] + bs) :: x.Valid()
    ensures EncodeBlocks(RelocateBlocks(m, used, newUsed, [b] + bs)) + tail
            == EncodeBlock(RelocateBlock(m, used, newUsed,
                b)) + (EncodeBlocks(RelocateBlocks(m, used, newUsed, bs)) + tail)
  {
    var b', bs' := RelocateBlock(m, used, newUsed, b), RelocateBlocks(m, used, newUsed, bs);
    RelocateBlockValid(m, used, newUsed, b);
    ConsRelocated(m, used, newUsed, b, bs);
    EncodeBlocksCons(b', bs', tail);
  }

  lemma ConsRelocated(m: seq<Option<int>>, used: word, newUsed: word, b: Block, bs: seq<Block>)
    requires BlockOk(m, used, b) && forall x <- bs :: BlockOk(m, used, x)
    ensures forall x <- [b] + bs :: BlockOk(m, used, x)
    ensures RelocateBlocks(m, used, newUsed, [b] + bs)
            == [RelocateBlock(m, used, newUsed, b)] + RelocateBlocks(m, used, newUsed, bs)
  {
  }

  /** One relocation pass. `ok`, `out`, `takes` and `moved` are SuffixOk, Relocated, BlockTaken and
      BlockMoved, under names the loop's proof does not look behind. */
  datatype Pass = Pass(m: seq<Option<int>>, used: word, newUsed: word, capacity: nat,
                       ok: (bool, seq<word>) -> bool, out: seq<word> -> seq<word>,
                       takes: (bool, seq<word>) -> bool, moved: seq<word> -> seq<word>)

  /** The pass accepts this block. */
  predicate BlockTaken(m: seq<Option<int>>, used: word, seen: bool, block: seq<word>) {
    2 <= |block| < 0x1_0000 && block[0] / 0x1_0000 == |block| &&
    ParseBlock(block).Some? && BlockOk(m, used, ParseBlock(block).value) && !(seen && IsUsed(ParseBlock(block).value))
  }

  /** What it leaves in its place. */
  function BlockMoved(m: seq<Option<int>>, used: word, newUsed: word, block: seq<word>): seq<word> {
    if !BlockTaken(m, used, false, block) then []
    else
      var b := RelocateBlock(m, used, newUsed, ParseBlock(block).value);
      if b.Valid() then EncodeBlock(b) else []
  }

  predicate Relocatable(m: seq<Option<int>>, used: word, tail: seq<word>) {
    ParseBlocks(tail).Some? && forall b <- ParseBlocks(tail).value.0 :: BlockOk(m, used, b)
  }

  function Relocated(m: seq<Option<int>>, used: word, newUsed: word, tail: seq<word>): seq<word> {
    if Relocatable(m, used, tail) then RelocatedSuffix(m, used, newUsed, tail) else []
  }

  ghost predicate IsPass(p: Pass) {
    (forall seen, tail {:trigger SuffixOk(p.m, p.used, p.capacity, seen, tail)} ::
       p.ok(seen, tail) <==> SuffixOk(p.m, p.used, p.capacity, seen, tail)) &&
    (forall tail {:trigger Relocated(p.m, p.used, p.newUsed, tail)} ::
        p.out(tail) == Relocated(p.m, p.used, p.newUsed, tail)) &&
    (forall seen, block {:trigger BlockTaken(p.m, p.used, seen, block)} ::
       p.takes(seen, block) <==> BlockTaken(p.m, p.used, seen, block)) &&
    (forall block {:trigger BlockMoved(p.m, p.used, p.newUsed, block)} ::
        p.moved(block) == BlockMoved(p.m, p.used, p.newUsed, block))
  }

  lemma NewPass(m: seq<Option<int>>, used: word, newUsed: word, capacity: nat) returns (p: Pass)
    ensures p.m == m && p.used == used && p.newUsed == newUsed && p.capacity == capacity && IsPass(p)
  {
    p := Pass(m, used, newUsed, capacity,
              (seen, tail) => SuffixOk(m, used, capacity, seen, tail), tail => Relocated(m, used, newUsed, tail),
              (seen, block) => BlockTaken(m, used, seen, block), block => BlockMoved(m, used, newUsed, block));
  }

  /** At the first token: the pass is about the whole table. */
  lemma PassStarts(p: Pass, s0: seq<word>)
    requires IsPass(p) && |s0| >= 6
    ensures p.ok(false, s0[4..]) <==> Parse(s0).Some? && TableOk(p.m, p.used, p.capacity, Parse(s0).value)
  {
    assert p.ok(false, s0[4..]) <==> SuffixOk(p.m, p.used, p.capacity, false, s0[4..]);
  }

  /** One block the pass accepts. */
  predicate Takes(p: Pass, seen: bool, tail: seq<word>, n: nat, b: Block) {
    tail != [] && tail[0] != TERMINAL && n == tail[0] / 0x1_0000 && 2 <= n <= |tail| &&
    ParseBlock(tail[..n]) == Some(b) && BlockOk(p.m, p.used, b) && !(seen && IsUsed(b)) &&
    b.Valid() && RelocateBlock(p.m, p.used, p.newUsed, b).Valid()
  }

  lemma PassSteps(p: Pass, seen: bool, tail: seq<word>, n: nat, b: Block)
    requires IsPass(p) && Takes(p, seen, tail, n, b)
    ensures p.ok(seen, tail) <==> p.ok(seen || IsUsed(b), tail[n..])
    ensures p.ok(seen, tail) ==> p.out(tail) == EncodeBlock(RelocateBlock(p.m, p.used, p.newUsed, b)) + p.out(tail[n..])
  {
    SuffixStep(p.m, p.used, p.capacity, seen, tail, n);
    var ok, later := SuffixOk(p.m, p.used, p.capacity, seen, tail),
        SuffixOk(p.m, p.used, p.capacity, seen || IsUsed(b), tail[n..]);
    if ok {
      SuffixWrites(p.m, p.used, p.newUsed, p.capacity, seen, tail, n, b);
      var out, rest := Relocated(p.m, p.used, p.newUsed, tail), Relocated(p.m, p.used, p.newUsed, tail[n..]);
    }
  }

  lemma PassEnds(p: Pass, end: word)
    requires IsPass(p)
    ensures p.ok(true, [TERMINAL, end]) <==> end == p.capacity
    ensures !p.ok(false, [TERMINAL, end])
    ensures p.out([TERMINAL, end]) == [TERMINAL, end]
  {
    var tail := [TERMINAL, end];
    assert ParseBlocks(tail) == Some(([], end));
    var seen, unseen := SuffixOk(p.m, p.used, p.capacity, true, tail), SuffixOk(p.m, p.used, p.capacity, false, tail);
    assert EncodeBlocks([]) + tail == tail;
    var out := Relocated(p.m, p.used, p.newUsed, tail);
  }

  /** Between blocks: those before t are relocated, the words from t on are as they were. */
  ghost predicate Walked(p: Pass, s0: seq<word>, s: seq<word>, seen: bool, t: nat) {
    4 <= t <= |s0| == |s| && s[..4] == s0[..4] && s[t..] == s0[t..] &&
    (p.ok(false, s0[4..]) <==> p.ok(seen, s0[t..])) &&
    (p.ok(false, s0[4..]) ==> p.out(s0[4..]) == s[4..t] + p.out(s0[t..]))
  }

  lemma WalkedStep(p: Pass, s0: seq<word>, s: seq<word>, s': seq<word>, seen: bool, t: nat, n: nat, b: Block)
    requires IsPass(p) && Walked(p, s0, s, seen, t) && t < |s0| && Takes(p, seen, s0[t..], n, b)
    requires |s'| == |s| && s'[..t] == s[..t] && s'[t + n..] == s0[t + n..]
    requires s'[t..t + n] == EncodeBlock(RelocateBlock(p.m, p.used, p.newUsed, b))
    ensures Walked(p, s0, s', seen || IsUsed(b), t + n)
  {
    PassSteps(p, seen, s0[t..], n, b);
    WalkedOn(p, s0, s, s', seen, seen || IsUsed(b), t, n, EncodeBlock(RelocateBlock(p.m, p.used, p.newUsed, b)));
  }

  lemma WalkedOn(p: Pass, s0: seq<word>, s: seq<word>, s': seq<word>, seen: bool, seen': bool, t: nat, n: nat,
      block: seq<word>)
    requires Walked(p, s0, s, seen, t) && t + n <= |s0|
    requires |s'| == |s| && s'[..t] == s[..t] && s'[t + n..] == s0[t + n..] && s'[t..t + n] == block
    requires p.ok(seen, s0[t..]) <==> p.ok(seen', s0[t..][n..])
    requires p.ok(seen, s0[t..]) ==> p.out(s0[t..]) == block + p.out(s0[t..][n..])
    ensures Walked(p, s0, s', seen', t + n)
  {
    CutDrop(s0, t, n);
    TakeWindow(s, t, 0, 4);
    TakeWindow(s', t, 0, 4);
    TakeWindow(s, t, 4, t);
    TakeWindow(s', t, 4, t);
    Split(s', 4, t, t + n);
    Assoc(s[4..t], block, p.out(s0[t + n..]));
  }

  /** A suffix the pass refuses at its first token. */
  predicate Refused(p: Pass, seen: bool, tail: seq<word>) {
    tail != [] &&
    var n := tail[0] / 0x1_0000;
    if tail[0] == TERMINAL then |tail| != 2 || tail[1] != p.capacity || !seen
    else n < 2 || n > |tail| || ParseBlock(tail[..n]).None? ||
         var b := ParseBlock(tail[..n]).value; !BlockOk(p.m, p.used, b) || (seen && IsUsed(b))
  }

  lemma RefusedFails(p: Pass, seen: bool, tail: seq<word>)
    requires IsPass(p) && Refused(p, seen, tail)
    ensures !p.ok(seen, tail)
  {
    var ok := SuffixOk(p.m, p.used, p.capacity, seen, tail);
    var n := tail[0] / 0x1_0000;
    if tail[0] != TERMINAL && 2 <= n <= |tail| {
      SuffixStep(p.m, p.used, p.capacity, seen, tail, n);
    }
  }

  lemma WalkedEnds(p: Pass, s0: seq<word>, s: seq<word>, t: nat)
    requires IsPass(p) && Walked(p, s0, s, true, t) && t + 2 == |s0| && s0[t] == TERMINAL && s0[t + 1] == p.capacity
    ensures p.ok(false, s0[4..]) && s == s0[..4] + p.out(s0[4..])
  {
    assert s0[t..] == [TERMINAL, s0[t + 1]];
    PassEnds(p, s0[t + 1]);
    CutDrop(s, 4, t - 4);
    CutDrop(s, 0, 4);
  }

  /** At the last token: the pass has relocated the whole table. */
  lemma PassWrites(p: Pass, s0: seq<word>)
    requires IsPass(p) && |s0| >= 6 && p.ok(false, s0[4..])
    ensures Parse(s0).Some? && TableOk(p.m, p.used, p.capacity, Parse(s0).value)
    ensures var table := RelocateTable(p.m, p.used, p.newUsed, Parse(s0).value);
            table.Valid() && s0[..4] + p.out(s0[4..]) == Encode(table)
  {
    PassStarts(p, s0);
    var out := Relocated(p.m, p.used, p.newUsed, s0[4..]);
    BlocksValid(p.m, p.used, p.newUsed, s0[4..]);
    var table := RelocateTable(p.m, p.used, p.newUsed, Parse(s0).value);
    Assoc(table.header, EncodeBlocks(table.blocks), [TERMINAL, table.end]);
  }

  /** One block in place: refuse it, or relocate it. */
  method RelocateOne(s: array<word>, t: nat, n: nat, used: word, newUsed: word, seen: bool, map_: array<Option<int>>)
    returns (ok: bool)
    requires t + n <= s.Length && 2 <= n == s[t] / 0x1_0000
    modifies s
    ensures s[..t] == old(s[..t])
    ensures ok <==> BlockTaken(map_[..], used, seen, old(s[t..t + n]))
    ensures ok ==> s[t..t + n] == BlockMoved(map_[..], used, newUsed, old(s[t..t + n])) && s[t + n..] == old(s[t + n..])
  {
    var kind := s[t] % 0x1_0000;
    if kind == RELOCATIONS {
      ok := RelocateRecordsAt(s, t, n, used, newUsed, seen, map_);
    } else if kind == USED {
      ok := RelocateUsed(s, t, n, used, newUsed, seen, map_[..]);
    } else {
      ok := (kind == 0x100 && n == 2) || (kind == 0 && n == 3);
      OtherBlock(s[t..t + n], map_[..], used, newUsed, seen);
    }
  }

  lemma OtherBlock(block: seq<word>, m: seq<Option<int>>, used: word, newUsed: word, seen: bool)
    requires 2 <= |block| < 0x1_0000 && block[0] / 0x1_0000 == |block|
    requires block[0] % 0x1_0000 != RELOCATIONS && block[0] % 0x1_0000 != USED
    ensures var kind := block[0] % 0x1_0000;
            BlockTaken(m, used, seen, block) <==> (kind == 0x100 && |block| == 2) || (kind == 0 && |block| == 3)
    ensures BlockTaken(m, used, seen, block) ==> BlockMoved(m, used, newUsed, block) == block
  {
    EncodeParseBlock(block);
  }

  /** A relocation block: its bases have to be 0, and its records get their targets. */
  method RelocateRecordsAt(s: array<word>, t: nat, n: nat, used: word, newUsed: word, seen: bool,
                           map_: array<Option<int>>) returns (ok: bool)
    requires t + n <= s.Length && 2 <= n == s[t] / 0x1_0000 && s[t] % 0x1_0000 == RELOCATIONS
    modifies s
    ensures s[..t] == old(s[..t])
    ensures ok <==> BlockTaken(map_[..], used, seen, old(s[t..t + n]))
    ensures ok ==> s[t..t + n] == BlockMoved(map_[..], used, newUsed, old(s[t..t + n])) && s[t + n..] == old(s[t + n..])
  {
    ghost var block, m := s[t..t + n], map_[..];
    assert block[0] == s[t];
    if n < 3 || s[t + 1] != 0 || s[t + 2] != 0 { return false; }
    assert block[3..] == s[t + 3..t + n] && block[1] == 0 && block[2] == 0;
    ghost var head := s[..t + 3];
    ok := RelocateWords(s, t + 3, t + n, map_);
    assert s[..t] == s[..t + 3][..t] == head[..t];
    if ok { RelocatedBlock(m, used, newUsed, block, head, s[..], t); }
  }

  /** The used-size block: it names the old size, and gets the new one. */
  method RelocateUsed(s: array<word>, t: nat, n: nat, used: word, newUsed: word, seen: bool,
                      ghost m: seq<Option<int>>) returns (ok: bool)
    requires t + n <= s.Length && 2 <= n == s[t] / 0x1_0000 && s[t] % 0x1_0000 == USED
    modifies s
    ensures s[..t] == old(s[..t])
    ensures ok <==> BlockTaken(m, used, seen, old(s[t..t + n]))
    ensures ok ==> s[t..t + n] == BlockMoved(m, used, newUsed, old(s[t..t + n])) && s[t + n..] == old(s[t + n..])
  {
    ghost var block := s[t..t + n];
    assert block[0] == s[t] && block[1..] == s[t + 1..t + n];
    if n != 3 || seen || s[t + 1] != used { return false; }
    s[t + 1] := newUsed;
    assert s[t..t + n] == block[1 := newUsed];
    UsedBlock(block, m, used, newUsed, seen);
    ok := true;
  }

  lemma UsedBlock(block: seq<word>, m: seq<Option<int>>, used: word, newUsed: word, seen: bool)
    requires |block| == 3 == block[0] / 0x1_0000 && block[0] % 0x1_0000 == USED && block[1] == used && !seen
    ensures BlockTaken(m, used, seen, block) && BlockMoved(m, used, newUsed, block) == block[1 := newUsed]
  {
    EncodeParseBlock(block);
    assert block[1 := newUsed][1..] == block[1..][0 := newUsed];
  }

  lemma RelocatedBlock(m: seq<Option<int>>, used: word, newUsed: word, block: seq<word>, head: seq<word>, s: seq<word>,
                       t: nat)
    requires 3 <= |block| < 0x1_0000 && block[0] / 0x1_0000 == |block| && block[0] % 0x1_0000 == RELOCATIONS
    requires block[1] == 0 && block[2] == 0 && BodyOk(m, block[3..])
    requires t + |block| <= |s| && |head| == t + 3 && head[t..] == block[..3]
    requires s[..t + 3] == head && s[t + 3..t + |block|] == RelocatedBody(m, block[3..])
    ensures ParseBlock(block).Some? && BlockOk(m, used, ParseBlock(block).value)
    ensures var b := RelocateBlock(m, used, newUsed, ParseBlock(block).value);
            b.Valid() && s[t..t + |block|] == EncodeBlock(b)
  {
    RelocatedEncoding(m, used, newUsed, block);
    Split(s, t, t + 3, t + |block|);
    assert s[t..t + 3] == s[..t + 3][t..];
  }

  /** A relocated block is its old head and its relocated body. */
  lemma RelocatedEncoding(m: seq<Option<int>>, used: word, newUsed: word, block: seq<word>)
    requires 3 <= |block| < 0x1_0000 && block[0] / 0x1_0000 == |block| && block[0] % 0x1_0000 == RELOCATIONS
    requires block[1] == 0 && block[2] == 0 && BodyOk(m, block[3..])
    ensures ParseBlock(block).Some? && BlockOk(m, used, ParseBlock(block).value)
    ensures var b := RelocateBlock(m, used, newUsed, ParseBlock(block).value);
            b.Valid() && EncodeBlock(b) == block[..3] + RelocatedBody(m, block[3..])
  {
    EncodeParseBlock(block);
    var b := ParseBlock(block).value;
    RelocateBlockValid(m, used, newUsed, b);
    var b' := RelocateBlock(m, used, newUsed, b);
    HeadOf(block);
    EncodeRelocs(b', block[0]);
  }

  lemma EncodeRelocs(b: Block, head: word)
    requires b.Valid() && b.Relocs? && head == b.Size() * 0x1_0000 + RELOCATIONS
    ensures EncodeBlock(b) == [head, b.base, b.base2] + (EncodeRecords(b.records) + Zeros(b.slack))
  {
    Assoc([head, b.base, b.base2], EncodeRecords(b.records), Zeros(b.slack));
  }

  lemma HeadOf(block: seq<word>)
    requires |block| >= 3
    ensures block[..3] == [block[0], block[1], block[2]]
  {
  }

  /** The pass takes one more block. */
  lemma TakesOne(p: Pass, s0: seq<word>, s: seq<word>, s': seq<word>, seen: bool, t: nat, n: nat)
    requires IsPass(p) && Walked(p, s0, s, seen, t) && t + n <= |s0| && 2 <= n == s[t] / 0x1_0000 && |s'| == |s|
    requires p.takes(seen, s[t..t + n])
    requires s'[..t] == s[..t] && s'[t..t + n] == p.moved(s[t..t + n]) && s'[t + n..] == s[t + n..]
    ensures Walked(p, s0, s', seen || s[t] % 0x1_0000 == USED, t + n)
  {
    SameTokens(s, s0, t);
    WindowOf(s, s0, t, n);
    var block := s0[t..][..n];
    assert block[0] == s[t];
    var b := TakenBlock(p, seen, block);
    WalkedStep(p, s0, s, s', seen, t, n, b);
  }

  lemma TakenBlock(p: Pass, seen: bool, block: seq<word>) returns (b: Block)
    requires IsPass(p) && 2 <= |block| < 0x1_0000 && block[0] / 0x1_0000 == |block| && p.takes(seen, block)
    ensures ParseBlock(block) == Some(b) && b.Valid() && BlockOk(p.m, p.used, b) && !(seen && IsUsed(b))
    ensures IsUsed(b) <==> block[0] % 0x1_0000 == USED
    ensures RelocateBlock(p.m, p.used, p.newUsed, b).Valid()
    ensures p.moved(block) == EncodeBlock(RelocateBlock(p.m, p.used, p.newUsed, b))
  {
    assert BlockTaken(p.m, p.used, seen, block);
    b := ParseBlock(block).value;
    EncodeParseBlock(block);
    RelocateBlockValid(p.m, p.used, p.newUsed, b);
    assert p.moved(block) == BlockMoved(p.m, p.used, p.newUsed, block);
  }

  /** The pass refuses at token t. */
  lemma RefusesAt(p: Pass, s0: seq<word>, s: seq<word>, seen: bool, t: nat)
    requires IsPass(p) && Walked(p, s0, s, seen, t) && t < |s0|
    requires var n := s[t] / 0x1_0000;
             if s[t] == TERMINAL && t + 2 == |s| && s[t + 1] == p.capacity then !seen
             else n < 2 || n > |s| - t || !p.takes(seen, s[t..t + n])
    ensures !p.ok(false, s0[4..])
  {
    SameTokens(s, s0, t);
    var n := s[t] / 0x1_0000;
    if 2 <= n <= |s| - t {
      WindowOf(s, s0, t, n);
      assert !p.takes(seen, s[t..t + n]) ==> !BlockTaken(p.m, p.used, seen, s0[t..][..n]);
    }
    RefusedFails(p, seen, s0[t..]);
  }

  /** The pass has run out of words before the terminal token. */
  lemma RefusesEnd(p: Pass, s0: seq<word>, s: seq<word>, seen: bool)
    requires IsPass(p) && Walked(p, s0, s, seen, |s0|)
    ensures !p.ok(false, s0[4..])
  {
    assert s0[|s0|..] == [];
    assert !SuffixOk(p.m, p.used, p.capacity, seen, []);
  }

  /** RelocateOne in the pass's terms. */
  method RelocatePassed(s: array<word>, t: nat, n: nat, seen: bool, map_: array<Option<int>>, ghost p: Pass,
      used: word, newUsed: word)
    returns (ok: bool)
    requires t + n <= s.Length && 2 <= n == s[t] / 0x1_0000
    requires IsPass(p) && p.m == map_[..] && p.used == used && p.newUsed == newUsed
    modifies s
    ensures s[..][..t] == old(s[..])[..t]
    ensures ok <==> p.takes(seen, old(s[..])[t..t + n])
    ensures ok ==> s[..][t..t + n] == p.moved(old(s[..])[t..t + n]) && s[..][t + n..] == old(s[..])[t + n..]
  {
    ghost var block := s[..][t..t + n];
    assert s[t..t + n] == block;
    assert p.takes(seen, block) <==> BlockTaken(p.m, p.used, seen, block);
    assert p.moved(block) == BlockMoved(p.m, p.used, p.newUsed, block);
    ok := RelocateOne(s, t, n, used, newUsed, seen, map_);
  }

  /** The relocation pass over a copy of the sideband. */
  method Relocate(s: array<word>, used: word, newUsed: word, capacity: nat, map_: array<Option<int>>) returns (ok: bool)
    requires s.Length >= 6
    modifies s
    ensures ok <==> Parse(old(s[..])).Some? && TableOk(map_[..], used, capacity, Parse(old(s[..])).value)
    ensures ok ==> RelocateTable(map_[..], used, newUsed, Parse(old(s[..])).value).Valid() &&
                   s[..] == Encode(RelocateTable(map_[..], used, newUsed, Parse(old(s[..])).value))
  {
    ghost var p := NewPass(map_[..], used, newUsed, capacity);
    ghost var s0 := s[..];
    PassStarts(p, s0);
    ok := RelocateTokens(s, used, newUsed, capacity, map_, p);
    if ok { PassWrites(p, s0); }
  }

  /** Token by token, in the pass's terms. */
  method RelocateTokens(s: array<word>, used: word, newUsed: word, capacity: nat, map_: array<Option<int>>,
      ghost p: Pass)
    returns (ok: bool)
    requires s.Length >= 6
    requires IsPass(p) && p.m == map_[..] && p.used == used && p.newUsed == newUsed && p.capacity == capacity
    modifies s
    ensures ok <==> p.ok(false, old(s[..])[4..])
    ensures ok ==> s[..] == old(s[..])[..4] + p.out(old(s[..])[4..])
  {
    ghost var s0 := s[..];
    var usedToken, t := false, 4;
    while t < s.Length
      invariant Walked(p, s0, s[..], usedToken, t)
    {
      ghost var before := s[..];
      var n, isUsed := s[t] / 0x1_0000, s[t] % 0x1_0000 == USED;
      if s[t] == TERMINAL && t + 2 == s.Length && s[t + 1] == capacity {
        if usedToken {
          SameTokens(before, s0, t);
          WalkedEnds(p, s0, before, t);
        } else {
          RefusesAt(p, s0, before, usedToken, t);
        }
        return usedToken;
      }
      if n < 2 || n > s.Length - t {
        RefusesAt(p, s0, before, usedToken, t);
        return false;
      }
      var one := RelocatePassed(s, t, n, usedToken, map_, p, used, newUsed);
      if !one {
        RefusesAt(p, s0, before, usedToken, t);
        return false;
      }
      TakesOne(p, s0, before, s[..], usedToken, t, n);
      usedToken := usedToken || isUsed;
      t := t + n;
    }
    RefusesEnd(p, s0, s[..], usedToken);
    ok := false;
  }

  lemma SameTokens(s: seq<word>, s0: seq<word>, t: nat)
    requires t < |s| == |s0| && s[t..] == s0[t..]
    ensures s[t] == s0[t] == s0[t..][0] && (t + 1 < |s| ==> s[t + 1] == s0[t + 1] == s0[t..][1])
  {
    assert s[t..][0] == s[t] && s0[t..][0] == s0[t];
    if t + 1 < |s| { assert s[t..][1] == s[t + 1] && s0[t..][1] == s0[t + 1]; }
  }

  lemma WindowOf(s: seq<word>, s0: seq<word>, t: nat, n: nat)
    requires t + n <= |s| == |s0| && s[t..] == s0[t..]
    ensures s[t..t + n] == s0[t..t + n] == s0[t..][..n] && s[t + n..] == s0[t + n..]
  {
    TakeFrom(s, t, t + n);
    TakeFrom(s0, t, t + n);
  }

  lemma Assembled(b: Batch, reps: seq<Replacement>, side: seq<word>)
    requires CommandsOk(b) && ReplacementsOk(b.commands[..b.used], reps)
    requires |Body(b.commands[..b.used], reps, 0)| <= |b.commands| < 0x1_0000_0000
    requires var m, t := PositionMap(b.commands[..b.used], reps), Parse(b.sideband);
             t.Some? && TableOk(m, b.used, |b.commands|, t.value) &&
             RelocateTable(m, b.used, |Body(b.commands[..b.used], reps, 0)|, t.value).Valid() &&
             side == Encode(RelocateTable(m, b.used, |Body(b.commands[..b.used], reps, 0)|, t.value))
    ensures var body := Body(b.commands[..b.used], reps, 0);
            Result(b, reps) == Some(Batch(body + Zeros(|b.commands| - |body|), side, |body|))
  {
  }

  /** The whole rewrite; `out` is None exactly where the source returns false. */
  method RewriteVideoBatch(b: Batch, reps: seq<Replacement>) returns (out: Option<Batch>)
    ensures out == Result(b, reps)
  {
    if b.used == 0 || b.used > |b.commands| || b.commands[b.used - 1] != BATCH_END || |b.sideband| < 6 ||
       !AllZero(b.commands[b.used..]) {
      return None;
    }
    var c := b.commands[..b.used];
    var walked, boundary := MarkBoundaries(c);
    if !walked { return None; }
    var spliced, map_, rebuilt := Splice(c, |b.commands|, boundary, reps);
    if !spliced { return None; }
    // A size no word can name never matches the terminal token.
    if |b.commands| >= 0x1_0000_0000 { return None; }
    var relocated, side := RelocateCopy(b.sideband, b.used, |rebuilt|, |b.commands|, map_);
    if !relocated { return None; }
    Assembled(b, reps, side);
    out := Some(Batch(rebuilt + Zeros(|b.commands| - |rebuilt|), side, |rebuilt|));
  }

  /** The relocation pass over a copy; the input stays as it is. */
  method RelocateCopy(sideband: seq<word>, used: word, newUsed: word, capacity: nat, map_: array<Option<int>>)
    returns (ok: bool, side: seq<word>)
    requires |sideband| >= 6
    ensures ok <==> Parse(sideband).Some? && TableOk(map_[..], used, capacity, Parse(sideband).value)
    ensures ok ==> RelocateTable(map_[..], used, newUsed, Parse(sideband).value).Valid() &&
                   side == Encode(RelocateTable(map_[..], used, newUsed, Parse(sideband).value))
  {
    var copy := new word[|sideband|](i requires 0 <= i < |sideband| => sideband[i]);
    assert copy[..] == sideband;
    ok := Relocate(copy, used, newUsed, capacity, map_);
    side := copy[..];
  }
}
