/** The in-place edits of `prepare` as the source runs them, each against its edit in `Prepare`. */
module PrepareLoops {
  import opened Words
  import opened Seqs
  import opened Sideband
  import opened Prepare

  // ---- inside one relocation block ----

  /** Words from r to hi still hold the records `rest` and the zero tail. */
  predicate Holds(s: seq<word>, r: nat, hi: nat, rest: seq<Record>, slack: nat) {
    r <= hi <= |s| && s[r..hi] == EncodeRecords(rest) + Zeros(slack) && forall x <- rest :: x.Valid()
  }

  lemma HoldsHead(s: seq<word>, r: nat, hi: nat, rest: seq<Record>, slack: nat)
    requires Holds(s, r, hi, rest, slack)
    ensures rest != [] ==> r + 5 <= hi && s[r] != 0 && s[r] % 2 == 1 && RecordAt(s, r) == rest[0] &&
                           Holds(s, r + 5, hi, rest[1..], slack)
    ensures rest == [] ==> hi - r == slack && s[r..hi] == Zeros(slack) && forall i :: r <= i < hi ==> s[i] == 0
  {
    var body := s[r..hi];
    if rest != [] {
      assert rest[0] in rest && rest[0].Valid();
      EncodeRecordsCons(rest[0], rest[1..], Zeros(slack));
      Uncons(rest);
      assert body == rest[0].Words() + (EncodeRecords(rest[1..]) + Zeros(slack));
      CutAppend(rest[0].Words(), EncodeRecords(rest[1..]) + Zeros(slack), 5);
      assert body[5..] == s[r + 5..hi];
      assert forall k :: 0 <= k < 5 ==> s[r + k] == body[k] == rest[0].Words()[k];
    } else {
      assert body == Zeros(slack);
      forall i | r <= i < hi ensures s[i] == 0 { assert body[i - r] == s[i]; }
    }
  }

  /** Midway through the filter: words lo..dst are the survivors read so far, those from src on
      are still to be read. */
  ghost predicate Compacting(s0: seq<word>, s: seq<word>, lo: nat, dst: nat, src: nat, hi: nat,
                             pipe: nat, rs: seq<Record>, rest: seq<Record>, slack: nat) {
    lo <= dst <= src <= hi <= |s| == |s0| && s[..lo] == s0[..lo] && s[hi..] == s0[hi..] &&
    Holds(s, src, hi, rest, slack) && (RowsOk(pipe, rs) <==> RowsOk(pipe, rest)) &&
    s[lo..dst] + EncodeRecords(Keep(pipe, rest)) == EncodeRecords(Keep(pipe, rs))
  }

  lemma CompactSkip(s0: seq<word>, s: seq<word>, lo: nat, dst: nat, src: nat, hi: nat,
                    pipe: nat, rs: seq<Record>, rest: seq<Record>, slack: nat)
    requires Compacting(s0, s, lo, dst, src, hi, pipe, rs, rest, slack) && rest != [] && IsRow(pipe, rest[0])
    ensures PlainAccess(rest[0]) ==> Compacting(s0, s, lo, dst, src + 5, hi, pipe, rs, rest[1..], slack)
    ensures !PlainAccess(rest[0]) ==> !RowsOk(pipe, rs)
  {
    HoldsHead(s, src, hi, rest, slack);
    assert forall x :: x in rest <==> x == rest[0] || x in rest[1..];
  }

  lemma CompactMove(s0: seq<word>, s: seq<word>, s': seq<word>, lo: nat, dst: nat, dst': nat, src: nat, src': nat,
                    hi: nat,
                    pipe: nat, rs: seq<Record>, rest: seq<Record>, slack: nat)
    requires Compacting(s0, s, lo, dst, src, hi, pipe, rs, rest, slack) && rest != [] && !IsRow(pipe, rest[0])
    requires dst' == dst + 5 && src' == src + 5 <= hi && |s'| == |s| && s'[..dst] == s[..dst] && s'[dst'..] == s[dst'..]
    requires s'[dst..dst'] == RecordAt(s, src).Words()
    ensures Compacting(s0, s', lo, dst', src', hi, pipe, rs, rest[1..], slack)
  {
    HoldsHead(s, src, hi, rest, slack);
    assert forall x :: x in rest <==> x == rest[0] || x in rest[1..];
    TakeWindow(s', dst, 0, lo);
    TakeWindow(s, dst, 0, lo);
    TakeWindow(s', dst, lo, dst);
    TakeWindow(s, dst, lo, dst);
    assert s'[..lo] == s'[0..lo] && s[..lo] == s[0..lo];
    SameAfter(s, s', dst', src', hi);
    Split(s', lo, dst, dst');
    KeptStep(s[lo..dst], rest[0], Keep(pipe, rest[1..]), EncodeRecords(Keep(pipe, rs)));
  }

  /** Sequences equal from i on are equal on later windows. */
  lemma SameAfter(s: seq<word>, s': seq<word>, i: nat, j: nat, k: nat)
    requires i <= j <= k <= |s| == |s'| && s[i..] == s'[i..]
    ensures s[j..k] == s'[j..k] && s[k..] == s'[k..]
  {
    assert s[i..][j - i..k - i] == s[j..k] && s'[i..][j - i..k - i] == s'[j..k];
    assert s[i..][k - i..] == s[k..] && s'[i..][k - i..] == s'[k..];
  }

  method MoveRecord(s: array<word>, dst: nat, src: nat)
    requires dst <= src && src + 5 <= s.Length
    modifies s
    ensures s[..dst] == old(s[..dst]) && s[dst + 5..] == old(s[dst + 5..])
    ensures s[dst..dst + 5] == RecordAt(old(s[..]), src).Words()
  {
    ghost var before := s[..];
    var k := 0;
    while k < 5
      invariant 0 <= k <= 5
      invariant forall i :: 0 <= i < s.Length && !(dst <= i < dst + k) ==> s[i] == before[i]
      invariant forall i :: dst <= i < dst + k ==> s[i] == before[src + (i - dst)]
    {
      s[dst + k] := s[src + k];
      k := k + 1;
    }
    Moved(before, s[..], dst, src);
  }

  lemma Moved(s: seq<word>, s': seq<word>, dst: nat, src: nat)
    requires src + 5 <= |s| == |s'| && dst + 5 <= |s|
    requires forall i :: 0 <= i < |s| && !(dst <= i < dst + 5) ==> s'[i] == s[i]
    requires forall i :: dst <= i < dst + 5 ==> s'[i] == s[src + (i - dst)]
    ensures s'[..dst] == s[..dst] && s'[dst + 5..] == s[dst + 5..] && s'[dst..dst + 5] == RecordAt(s, src).Words()
  {
    assert s'[dst] == s[src] && s'[dst + 1] == s[src + 1] && s'[dst + 2] == s[src + 2];
    assert s'[dst + 3] == s[src + 3] && s'[dst + 4] == s[src + 4];
  }

  method Clear(s: array<word>, lo: nat, hi: nat)
    requires lo <= hi <= s.Length
    modifies s
    ensures s[..lo] == old(s[..lo]) && s[hi..] == old(s[hi..]) && s[lo..hi] == Zeros(hi - lo)
  {
    var i := lo;
    while i < hi
      invariant lo <= i <= hi
      invariant forall j :: 0 <= j < s.Length ==> s[j] == if lo <= j < i then 0 else old(s[j])
    {
      s[i] := 0;
      i := i + 1;
    }
  }

  /** The record at src, as the filter reads it. */
  lemma RowHead(s: seq<word>, src: nat, hi: nat, pipe: nat, rest: seq<Record>, slack: nat)
    requires Holds(s, src, hi, rest, slack) && src + 5 <= hi && s[src] != 0
    ensures rest != [] && Holds(s, src + 5, hi, rest[1..], slack)
    ensures var target := Target(s[src]);
            IsRow(pipe, rest[0]) <==> target == pipe + 4 || target == pipe + 13 || target == pipe + 22
    ensures PlainAccess(rest[0]) <==> s[src] < 0x8000_0000 && s[src] % 32 == 0x11
  {
    HoldsHead(s, src, hi, rest, slack);
  }

  /** One record: dropped, moved down, or refused. */
  /** One compaction, with its invariant as a function of what changes. */
  datatype Sift = Sift(s0: seq<word>, lo: nat, hi: nat, pipe: nat, rs: seq<Record>, slack: nat,
      inv: (seq<word>, nat, nat, seq<Record>) -> bool) {
    ghost predicate Inv(s: seq<word>, dst: nat, src: nat, rest: seq<Record>) {
      Compacting(s0, s, lo, dst, src, hi, pipe, rs, rest, slack)
    }

    ghost predicate Valid() {
      forall s: seq<word>, dst: nat, src: nat, rest: seq<Record> {:trigger Inv(s, dst, src, rest)} ::
        inv(s, dst, src, rest) <==> Inv(s, dst, src, rest)
    }
  }

  lemma SiftStart(s0: seq<word>, lo: nat, hi: nat, pipe: nat, rs: seq<Record>, slack: nat) returns (w: Sift)
    requires Holds(s0, lo, hi, rs, slack)
    ensures w.Valid() && w.inv(s0, lo, lo, rs)
    ensures w.s0 == s0 && w.lo == lo && w.hi == hi && w.pipe == pipe && w.rs == rs && w.slack == slack
  {
    CompactStart(s0, lo, hi, pipe, rs, slack);
    w := Sift(s0, lo, hi, pipe, rs, slack,
              (s: seq<word>, dst: nat, src: nat, rest: seq<Record>) =>
                Compacting(s0, s, lo, dst, src, hi, pipe, rs, rest, slack));
    assert w.Inv(s0, lo, lo, rs);
  }

  /** The record at src, and what is left where it is a row or is not. */
  lemma SiftHead(w: Sift, s: seq<word>, dst: nat, src: nat, rest: seq<Record>)
    requires w.Valid() && w.inv(s, dst, src, rest) && src + 5 <= w.hi <= |s| && s[src] != 0
    ensures rest != [] && dst <= src
    ensures var target := Target(s[src]);
            IsRow(w.pipe, rest[0]) <==> target == w.pipe + 4 || target == w.pipe + 13 || target == w.pipe + 22
    ensures PlainAccess(rest[0]) <==> s[src] < 0x8000_0000 && s[src] % 32 == 0x11
  {
    assert w.Inv(s, dst, src, rest);
    RowHead(s, src, w.hi, w.pipe, rest, w.slack);
  }

  lemma SiftSkip(w: Sift, s: seq<word>, dst: nat, src: nat, rest: seq<Record>)
    requires w.Valid() && w.inv(s, dst, src, rest) && src + 5 <= w.hi && rest != [] && IsRow(w.pipe, rest[0])
    ensures PlainAccess(rest[0]) ==> w.inv(s, dst, src + 5, rest[1..])
    ensures !PlainAccess(rest[0]) ==> !RowsOk(w.pipe, w.rs)
  {
    assert w.Inv(s, dst, src, rest);
    CompactSkip(w.s0, s, w.lo, dst, src, w.hi, w.pipe, w.rs, rest, w.slack);
    assert w.Inv(s, dst, src + 5, rest[1..]) <==> w.inv(s, dst, src + 5, rest[1..]);
  }

  lemma SiftMove(w: Sift, s: seq<word>, s': seq<word>, dst: nat, src: nat, rest: seq<Record>)
    requires w.Valid() && w.inv(s, dst, src, rest) && rest != [] && !IsRow(w.pipe, rest[0])
    requires dst <= src && src + 5 <= w.hi <= |s| == |s'|
    requires s'[..dst] == s[..dst] && s'[dst + 5..] == s[dst + 5..] && s'[dst..dst + 5] == RecordAt(s, src).Words()
    ensures w.inv(s', dst + 5, src + 5, rest[1..])
  {
    assert w.Inv(s, dst, src, rest);
    CompactMove(w.s0, s, s', w.lo, dst, dst + 5, src, src + 5, w.hi, w.pipe, w.rs, rest, w.slack);
    assert w.Inv(s', dst + 5, src + 5, rest[1..]);
  }

  method DropOne(s: array<word>, dst: nat, src: nat, pipe: nat, ghost w: Sift, ghost rest: seq<Record>)
    returns (ok: bool, to: nat)
    requires w.Valid() && w.inv(s[..], dst, src, rest) && pipe == w.pipe && src + 5 <= w.hi <= s.Length && s[src] != 0
    modifies s
    ensures ok ==> rest != [] && w.inv(s[..], to, src + 5, rest[1..])
    ensures !ok ==> !RowsOk(pipe, w.rs)
  {
    ghost var before := s[..];
    SiftHead(w, before, dst, src, rest);
    var target := Target(s[src]);
    if target == pipe + 4 || target == pipe + 13 || target == pipe + 22 {
      SiftSkip(w, before, dst, src, rest);
      ok, to := s[src] < 0x8000_0000 && s[src] % 32 == 0x11, dst;
    } else {
      MoveRecord(s, dst, src);
      SiftMove(w, before, s[..], dst, src, rest);
      ok, to := true, dst + 5;
    }
  }

  method DropRowsIn(s: array<word>, lo: nat, hi: nat, pipe: nat, ghost rs: seq<Record>,
      ghost slack: nat) returns (ok: bool)
    requires Holds(s[..], lo, hi, rs, slack)
    modifies s
    ensures ok <==> RowsOk(pipe, rs)
    ensures ok ==> s[..lo] == old(s[..lo]) && s[hi..] == old(s[hi..])
    ensures ok ==> s[lo..hi] == EncodeRecords(Keep(pipe, rs)) + Zeros(slack + 5 * (|rs| - |Keep(pipe, rs)|))
  {
    ghost var s0, rest := s[..], rs;
    BodyEnd(s0, lo, lo + 5 * |rs|, hi, rs, slack);
    ghost var w := SiftStart(s0, lo, hi, pipe, rs, slack);
    var dst, src := lo, lo;
    while src + 5 <= hi && s[src] != 0
      invariant w.inv(s[..], dst, src, rest) && hi <= s.Length
      decreases hi - src
    {
      ok, dst := DropOne(s, dst, src, pipe, w, rest);
      if !ok { return; }
      rest := rest[1..];
      src := src + 5;
    }
    assert w.Inv(s[..], dst, src, rest);
    ClearRest(s, lo, dst, src, hi, pipe, s0, rs, rest, slack);
    ok := true;
  }

  lemma CompactStart(s: seq<word>, lo: nat, hi: nat, pipe: nat, rs: seq<Record>, slack: nat)
    requires Holds(s, lo, hi, rs, slack)
    ensures Compacting(s, s, lo, lo, lo, hi, pipe, rs, rs, slack)
  {
    assert [] + EncodeRecords(Keep(pipe, rs)) == EncodeRecords(Keep(pipe, rs));
  }

  /** No record is left to read: the words behind the survivors become zeros. */
  method ClearRest(s: array<word>, lo: nat, dst: nat, src: nat, hi: nat, pipe: nat,
                   ghost s0: seq<word>, ghost rs: seq<Record>, ghost rest: seq<Record>, ghost slack: nat)
    requires Compacting(s0, s[..], lo, dst, src, hi, pipe, rs, rest, slack) && (src + 5 > hi || s[src] == 0)
    requires hi - lo == 5 * |rs| + slack
    modifies s
    ensures RowsOk(pipe, rs) && s[..lo] == s0[..lo] && s[hi..] == s0[hi..]
    ensures s[lo..hi] == EncodeRecords(Keep(pipe, rs)) + Zeros(slack + 5 * (|rs| - |Keep(pipe, rs)|))
  {
    ghost var before := s[..];
    HoldsHead(before, src, hi, rest, slack);
    Clear(s, dst, hi);
    Cleared(s0, before, s[..], lo, dst, src, hi, pipe, rs, rest, slack);
  }

  lemma Cleared(s0: seq<word>, s: seq<word>, s': seq<word>, lo: nat, dst: nat, src: nat, hi: nat,
                pipe: nat, rs: seq<Record>, rest: seq<Record>, slack: nat)
    requires Compacting(s0, s, lo, dst, src, hi, pipe, rs, rest, slack) && rest == []
    requires |s'| == |s| && s'[..dst] == s[..dst] && s'[hi..] == s[hi..] && s'[dst..hi] == Zeros(hi - dst)
    requires hi - lo == 5 * |rs| + slack
    ensures RowsOk(pipe, rs) && s'[..lo] == s0[..lo] && s'[hi..] == s0[hi..]
    ensures s'[lo..hi] == EncodeRecords(Keep(pipe, rs)) + Zeros(slack + 5 * (|rs| - |Keep(pipe, rs)|))
  {
    assert s[lo..dst] + [] == s[lo..dst];
    TakeWindow(s', dst, 0, lo);
    TakeWindow(s, dst, 0, lo);
    TakeWindow(s', dst, lo, dst);
    TakeWindow(s, dst, lo, dst);
    assert s'[..lo] == s'[0..lo] && s[..lo] == s[0..lo];
    Split(s', lo, dst, hi);
  }

  lemma KeptStep(kept: seq<word>, first: Record, rest: seq<Record>, all: seq<word>)
    requires kept + EncodeRecords([first] + rest) == all
    ensures kept + first.Words() + EncodeRecords(rest) == all
  {
    EncodeRecordsCons(first, rest, []);
    assert EncodeRecords([first] + rest) + [] == EncodeRecords([first] + rest) &&
           EncodeRecords(rest) + [] == EncodeRecords(rest);
    Assoc(kept, first.Words(), EncodeRecords(rest));
  }

  /** Words `words` go to position q, over zeros. */
  method Store(s: array<word>, q: nat, words: seq<word>)
    requires q + |words| <= s.Length
    modifies s
    ensures s[..q] == old(s[..q]) && s[q + |words|..] == old(s[q + |words|..]) && s[q..q + |words|] == words
  {
    var i := 0;
    while i < |words|
      invariant 0 <= i <= |words|
      invariant forall j :: 0 <= j < s.Length ==> s[j] == if q <= j < q + i then words[j - q] else old(s[j])
    {
      s[q + i] := words[i];
      i := i + 1;
    }
  }

  /** A body whose records end at q, with `extra` stored over the front of its zero tail. */
  lemma Extended(s: seq<word>, s': seq<word>, lo: nat, q: nat, hi: nat, rs: seq<Record>, extra: seq<Record>, slack: nat)
    requires lo <= q <= hi <= |s| == |s'| && hi - q == slack >= 5 * |extra|
    requires s[lo..q] == EncodeRecords(rs) && s[q..hi] == Zeros(slack)
    requires var k := q + 5 * |extra|; s'[..q] == s[..q] && s'[k..] == s[k..] && s'[q..k] == EncodeRecords(extra)
    ensures s'[lo..hi] == EncodeRecords(rs + extra) + Zeros(slack - 5 * |extra|)
    ensures s'[..lo] == s[..lo] && s'[hi..] == s[hi..]
  {
    var k := q + 5 * |extra|;
    SameBefore(s, s', lo, q);
    SameAfter(s, s', k, k, hi);
    ZerosLeft(s, q, k, hi, slack);
    SameAfter(s, s', k, hi, hi);
    Split(s', lo, q, hi);
    Split(s', q, k, hi);
    EncodeRecordsAppend(rs, extra);
    Assoc(EncodeRecords(rs), EncodeRecords(extra), Zeros(slack - 5 * |extra|));
  }

  lemma SameBefore(s: seq<word>, s': seq<word>, lo: nat, q: nat)
    requires lo <= q <= |s| == |s'| && s'[..q] == s[..q]
    ensures s'[..lo] == s[..lo] && s'[lo..q] == s[lo..q]
  {
    assert s'[..lo] == s'[..q][..lo] && s[..lo] == s[..q][..lo];
    TakeWindow(s', q, lo, q);
    TakeWindow(s, q, lo, q);
  }

  lemma ZerosLeft(s: seq<word>, q: nat, k: nat, hi: nat, slack: nat)
    requires q <= k <= hi <= |s| && hi - q == slack && s[q..hi] == Zeros(slack)
    ensures s[k..hi] == Zeros(hi - k)
  {
    assert s[k..hi] == s[q..hi][k - q..];
  }

  /** The end of a body's records. */
  lemma BodyEnd(s: seq<word>, lo: nat, q: nat, hi: nat, rs: seq<Record>, slack: nat)
    requires Holds(s, lo, hi, rs, slack) && q == lo + 5 * |rs|
    ensures q + slack == hi
    ensures s[lo..q] == EncodeRecords(rs)
    ensures s[q..hi] == Zeros(slack)
  {
    Parted(s, lo, q, hi, EncodeRecords(rs), Zeros(slack));
  }

  lemma Parted(s: seq<word>, lo: nat, q: nat, hi: nat, a: seq<word>, z: seq<word>)
    requires lo <= hi <= |s| && s[lo..hi] == a + z && q == lo + |a|
    ensures q + |z| == hi
    ensures s[lo..q] == a
    ensures s[q..hi] == z
  {
    assert |s[lo..hi]| == |a| + |z|;
    CutAppend(a, z, q - lo);
    CutWindow(s, lo, hi, q - lo);
  }

  lemma CutWindow(s: seq<word>, lo: nat, hi: nat, n: nat)
    requires lo + n <= hi <= |s|
    ensures s[lo..hi][..n] == s[lo..lo + n] && s[lo..hi][n..] == s[lo + n..hi]
  {
  }

  /** The words of the clones one record calls for, or a refusal. */
  method CloneWords(c: Clones, r: Record) returns (ok: bool, added: seq<word>)
    requires c.Valid()
    ensures ok <==> (c.IsChroma(r) ==> r.head >= 0x8000_0000 && r.head % 32 == 0x15)
    ensures ok ==> added == EncodeRecords(c.Of(r))
  {
    added := [];
    var target := Target(r.head);
    if target in c.chroma {
      if !(r.head >= 0x8000_0000 && r.head % 32 == 0x15) { return false, added; }
      added := added + [Retarget(r.head, target + 1), r.handles, r.w2, r.w3, r.w4];
    }
    if c.recon != 0 && c.reference != 0 && (target == c.recon + 1 || target == c.recon + 2) {
      var offset := target - c.recon;
      var w2 := if offset == 1 then r.w2 % 0x1000_0000 + 0x5000_0000 else r.w2;
      added := added + [Retarget(r.head, c.reference + offset), r.handles, w2, r.w3, r.w4];
    }
    ok := true;
    CloneEncoding(c, r);
  }

  lemma CloneEncoding(c: Clones, r: Record)
    requires c.Valid()
    ensures EncodeRecords(c.Of(r)) ==
              (if c.IsChroma(r) then r.(head := Retarget(r.head, Target(r.head) + 1)).Words() else []) +
              (if c.IsSurface(r) then c.SurfaceClone(r).Words() else [])
  {
    var a: seq<Record> := if c.IsChroma(r) then [r.(head := Retarget(r.head, Target(r.head) + 1))] else [];
    var b: seq<Record> := if c.IsSurface(r) then [c.SurfaceClone(r)] else [];
    EncodeRecordsAppend(a, b);
    if a != [] { EncodeRecordsSnoc([], a[0]); assert [] + [a[0]] == a; }
    if b != [] { EncodeRecordsSnoc([], b[0]); assert [] + [b[0]] == b; }
  }

  /** The clones a block's records call for; `end` is where its records end. */
  method CollectClones(s: array<word>, lo: nat, hi: nat, c: Clones, ghost rs: seq<Record>, ghost slack: nat)
    returns (ok: bool, added: seq<word>, end: nat)
    requires c.Valid() && Holds(s[..], lo, hi, rs, slack)
    ensures ok <==> c.Ok(rs)
    ensures ok ==> added == EncodeRecords(c.All(rs)) && end == lo + 5 * |rs|
  {
    ghost var rest := rs;
    added, end := [], lo;
    while end + 5 <= hi && s[end] != 0
      invariant lo <= end <= hi && end == lo + 5 * (|rs| - |rest|) && |rest| <= |rs|
      invariant Holds(s[..], end, hi, rest, slack)
      invariant c.Ok(rs) <==> c.Ok(rest)
      invariant added + EncodeRecords(c.All(rest)) == EncodeRecords(c.All(rs))
    {
      HoldsHead(s[..], end, hi, rest, slack);
      assert forall x :: x in rest <==> x == rest[0] || x in rest[1..];
      var good, more := CloneWords(c, Record(s[end], s[end + 1], s[end + 2], s[end + 3], s[end + 4]));
      if !good { return false, added, end; }
      AddedStep(added, c, rest, EncodeRecords(c.All(rs)));
      added := added + more;
      rest := rest[1..];
      end := end + 5;
    }
    HoldsHead(s[..], end, hi, rest, slack);
    ok := true;
  }

  lemma AddedStep(added: seq<word>, c: Clones, rest: seq<Record>, all: seq<word>)
    requires c.Valid() && rest != [] && added + EncodeRecords(c.All(rest)) == all
    ensures added + EncodeRecords(c.Of(rest[0])) + EncodeRecords(c.All(rest[1..])) == all
  {
    EncodeRecordsAppend(c.Of(rest[0]), c.All(rest[1..]));
    Assoc(added, EncodeRecords(c.Of(rest[0])), EncodeRecords(c.All(rest[1..])));
  }

  /** The cloning pass over one block; `n` clones are added behind its records. */
  method CloneIn(s: array<word>, lo: nat, hi: nat, c: Clones, ghost rs: seq<Record>,
      ghost slack: nat) returns (ok: bool, n: nat)
    requires c.Valid() && Holds(s[..], lo, hi, rs, slack)
    modifies s
    ensures ok <==> c.Ok(rs) && 5 * |c.All(rs)| < slack
    ensures ok ==> n == |c.All(rs)| && s[..lo] == old(s[..lo]) && s[hi..] == old(s[hi..])
    ensures ok ==> s[lo..hi] == EncodeRecords(rs + c.All(rs)) + Zeros(slack - 5 * |c.All(rs)|)
  {
    ghost var before := s[..];
    BodyEnd(before, lo, lo + 5 * |rs|, hi, rs, slack);
    var collected, added, end := CollectClones(s, lo, hi, c, rs, slack);
    n := |added| / 5;
    if !collected || end + |added| >= hi { return false, n; }
    Store(s, end, added);
    Extended(before, s[..], lo, end, hi, rs, c.All(rs), slack);
    ok := true;
  }

  /** Midway through rebinding. */
  ghost predicate Rebinding(s0: seq<word>, s: seq<word>, lo: nat, r: nat, hi: nat, b: Rebind, rs: seq<Record>,
      rest: seq<Record>, slack: nat)
    requires b.Valid()
  {
    lo <= r <= hi <= |s| == |s0| && s[..lo] == s0[..lo] && s[hi..] == s0[hi..] && Holds(s, r, hi, rest, slack) &&
    s[lo..r] + EncodeRecords(b.All(rest)) == EncodeRecords(b.All(rs))
  }

  lemma RebindStep(s0: seq<word>, s: seq<word>, s': seq<word>, lo: nat, r: nat, hi: nat, b: Rebind, rs: seq<Record>,
      rest: seq<Record>, slack: nat)
    requires b.Valid() && Rebinding(s0, s, lo, r, hi, b, rs, rest, slack) && rest != [] && r + 5 <= hi
    requires |s'| == |s| && s'[..r] == s[..r] && s'[r + 5..] == s[r + 5..] && RecordAt(s', r) == b.Of(RecordAt(s, r))
    ensures Rebinding(s0, s', lo, r + 5, hi, b, rs, rest[1..], slack)
  {
    HoldsHead(s, r, hi, rest, slack);
    SameAround(s, s', lo, r, hi);
    SameAfter(s, s', r + 5, r + 5, hi);
    SplitTo(s', lo, r);
    BoundHead(b, rest);
    KeptStep(s[lo..r], b.Of(rest[0]), b.All(rest[1..]), EncodeRecords(b.All(rs)));
  }

  lemma SameAround(s: seq<word>, s': seq<word>, lo: nat, r: nat, hi: nat)
    requires lo <= r && r + 5 <= hi <= |s| == |s'| && s'[..r] == s[..r] && s'[r + 5..] == s[r + 5..]
    ensures s'[..lo] == s[..lo] && s'[lo..r] == s[lo..r] && s'[hi..] == s[hi..]
  {
    assert s'[..lo] == s'[..r][..lo] && s[..lo] == s[..r][..lo];
    TakeWindow(s', r, lo, r);
    TakeWindow(s, r, lo, r);
    SameAfter(s, s', r + 5, hi, hi);
  }

  lemma SplitTo(s: seq<word>, lo: nat, r: nat)
    requires lo <= r && r + 5 <= |s|
    ensures s[lo..r + 5] == s[lo..r] + RecordAt(s, r).Words()
  {
  }

  lemma BoundHead(b: Rebind, rest: seq<Record>)
    requires b.Valid() && rest != []
    ensures b.All(rest) == [b.Of(rest[0])] + b.All(rest[1..])
  {
  }

  function BoundCount(b: Rebind, rs: seq<Record>): nat {
    if rs == [] then 0 else (if b.Bound(rs[0]) then 1 else 0) + BoundCount(b, rs[1..])
  }

  /** The innermost loop: the six line buffers against the record at r. */
  method RebindOne(s: array<word>, r: nat, b: Rebind) returns (n: nat)
    requires b.Valid() && r + 5 <= s.Length
    modifies s
    ensures s[..r] == old(s[..r]) && s[r + 5..] == old(s[r + 5..])
    ensures RecordAt(s[..], r) == b.Of(RecordAt(old(s[..]), r))
    ensures n == if b.Bound(RecordAt(old(s[..]), r)) then 1 else 0
  {
    ghost var rec := RecordAt(s[..], r);
    var offsets := [7, 10, 16, 19, 25, 28];
    var target, k := Target(s[r]), 0;
    n := 0;
    while k < 6
      invariant 0 <= k <= 6
      invariant forall i :: 0 <= i < s.Length && i != r + 1 ==> s[i] == old(s[i])
      invariant s[r + 1] == if b.Slot(rec) < k then b.Of(rec).handles else rec.handles
      invariant n == if b.Slot(rec) < k && b.Bound(rec) then 1 else 0
    {
      if target == b.pipe + offsets[k] && s[r] < 0x8000_0000 {
        s[r + 1] := b.handles[k];
        n := n + 1;
      }
      k := k + 1;
    }
  }

  /** The rebinding pass over one block; `n` records are bound to scratch handles. */
  method RebindIn(s: array<word>, lo: nat, hi: nat, b: Rebind, ghost rs: seq<Record>, ghost slack: nat) returns (n: nat)
    requires b.Valid() && Holds(s[..], lo, hi, rs, slack)
    modifies s
    ensures n == BoundCount(b, rs) && s[..lo] == old(s[..lo]) && s[hi..] == old(s[hi..])
    ensures s[lo..hi] == EncodeRecords(b.All(rs)) + Zeros(slack)
  {
    ghost var s0, rest := s[..], rs;
    var r := lo;
    n := 0;
    assert [] + EncodeRecords(b.All(rs)) == EncodeRecords(b.All(rs));
    while r + 5 <= hi
      invariant Rebinding(s0, s[..], lo, r, hi, b, rs, rest, slack)
      invariant n + BoundCount(b, rest) == BoundCount(b, rs)
    {
      HoldsHead(s[..], r, hi, rest, slack);
      if s[r] % 2 != 1 { break; }
      ghost var before := s[..];
      var one := RebindOne(s, r, b);
      RebindStep(s0, before, s[..], lo, r, hi, b, rs, rest, slack);
      n := n + one;
      rest := rest[1..];
      r := r + 5;
    }
    RebindEnds(s0, s[..], lo, r, hi, b, rs, rest, slack);
  }

  lemma RebindEnds(s0: seq<word>, s: seq<word>, lo: nat, r: nat, hi: nat, b: Rebind, rs: seq<Record>,
      rest: seq<Record>, slack: nat)
    requires b.Valid() && Rebinding(s0, s, lo, r, hi, b, rs, rest, slack) && (r + 5 > hi || s[r] % 2 != 1)
    ensures rest == [] && s[..lo] == s0[..lo] && s[hi..] == s0[hi..] &&
            s[lo..hi] == EncodeRecords(b.All(rs)) + Zeros(slack)
  {
    HoldsHead(s, r, hi, rest, slack);
    assert s[lo..r] + [] == s[lo..r];
    Split(s, lo, r, hi);
  }

  /** A record's head and handles over five zero words. */
  method Bind(s: array<word>, q: nat, target: nat, handle: word)
    requires q + 5 <= s.Length && target < FIELD && s[q..q + 5] == Zeros(5)
    modifies s
    ensures s[..q] == old(s[..q]) && s[q + 5..] == old(s[q + 5..]) && s[q..q + 5] == Fresh(target, handle).Words()
  {
    ghost var old5 := s[q..q + 5];
    assert old5[2] == s[q + 2] && old5[3] == s[q + 3] && old5[4] == s[q + 4];
    s[q], s[q + 1] := FreshHead(target), handle;
  }

  /** The two VDEnc bindings: at the first empty slot that leaves a tail, if there is one. */
  method AppendTwo(s: array<word>, lo: nat, hi: nat, vdenc: nat, h1: word, h2: word, ghost rs: seq<Record>,
      ghost slack: nat)
    returns (n: nat)
    requires vdenc + 65 < FIELD && Holds(s[..], lo, hi, rs, slack)
    modifies s
    ensures n == (if 10 < slack then 2 else 0) && s[..lo] == old(s[..lo]) && s[hi..] == old(s[hi..])
    ensures s[lo..hi] == if 10 < slack then
            EncodeRecords(rs + [Fresh(vdenc + 62, h1), Fresh(vdenc + 65, h2)]) + Zeros(slack - 10)
                         else old(s[lo..hi])
  {
    ghost var rest := rs;
    BodyEnd(s[..], lo, lo + 5 * |rs|, hi, rs, slack);
    var q := lo;
    while q + 10 < hi && s[q] != 0
      invariant lo <= q <= hi && q == lo + 5 * (|rs| - |rest|) && |rest| <= |rs|
      invariant Holds(s[..], q, hi, rest, slack) && s[..] == old(s[..])
    {
      HoldsHead(s[..], q, hi, rest, slack);
      rest := rest[1..];
      q := q + 5;
    }
    HoldsHead(s[..], q, hi, rest, slack);
    if q + 10 < hi {
      ghost var before := s[..];
      BindTwo(s, q, vdenc, h1, h2);
      Extended(before, s[..], lo, q, hi, rs, [Fresh(vdenc + 62, h1), Fresh(vdenc + 65, h2)], slack);
      n := 2;
    } else {
      n := 0;
    }
  }

  method BindTwo(s: array<word>, q: nat, vdenc: nat, h1: word, h2: word)
    requires q + 10 <= s.Length && vdenc + 65 < FIELD && forall i :: q <= i < q + 10 ==> s[i] == 0
    modifies s
    ensures s[..q] == old(s[..q]) && s[q + 10..] == old(s[q + 10..])
    ensures s[q..q + 10] == EncodeRecords([Fresh(vdenc + 62, h1), Fresh(vdenc + 65, h2)])
  {
    ghost var before := s[..];
    assert s[q..q + 5] == Zeros(5) && s[q + 5..q + 10] == Zeros(5);
    Bind(s, q, vdenc + 62, h1);
    ghost var middle := s[..];
    SameAfter(before, middle, q + 5, q + 5, q + 10);
    assert middle[q + 5..q + 10] == s[q + 5..q + 10];
    Bind(s, q + 5, vdenc + 65, h2);
    TwoBound(before, middle, s[..], q, Fresh(vdenc + 62, h1), Fresh(vdenc + 65, h2));
  }

  lemma TwoBound(s: seq<word>, s': seq<word>, s'': seq<word>, q: nat, a: Record, b: Record)
    requires q + 10 <= |s| == |s'| == |s''|
    requires s'[..q] == s[..q] && s'[q + 5..] == s[q + 5..] && s'[q..q + 5] == a.Words()
    requires s''[..q + 5] == s'[..q + 5] && s''[q + 10..] == s'[q + 10..] && s''[q + 5..q + 10] == b.Words()
    ensures s''[..q] == s[..q] && s''[q + 10..] == s[q + 10..] && s''[q..q + 10] == EncodeRecords([a, b])
  {
    assert s''[..q] == s''[..q + 5][..q] && s'[..q] == s'[..q + 5][..q];
    assert s''[q..q + 5] == s''[..q + 5][q..] && s'[q..q + 5] == s'[..q + 5][q..];
    SameAfter(s, s', q + 5, q + 10, |s|);
    Split(s'', q, q + 5, q + 10);
    assert EncodeRecords([a, b]) == a.Words() + EncodeRecords([b]) &&
           EncodeRecords([b]) == b.Words() + EncodeRecords([]);
    assert [a, b][1..] == [b] && [b][1..] == [];
  }

  /** The three off-chip line buffers; refused where they would leave no zero tail. */
  method AppendThree(s: array<word>, lo: nat, hi: nat, pipe: nat, h: seq<word>, ghost rs: seq<Record>, ghost slack: nat)
    returns (ok: bool)
    requires pipe + 22 < FIELD && |h| == 3 && Holds(s[..], lo, hi, rs, slack)
    modifies s
    ensures ok <==> 15 < slack
    ensures s[..lo] == old(s[..lo]) && s[hi..] == old(s[hi..])
    ensures ok ==> s[lo..hi] == EncodeRecords(rs + Offchip(pipe, h)) + Zeros(slack - 15)
  {
    ghost var rest := rs;
    BodyEnd(s[..], lo, lo + 5 * |rs|, hi, rs, slack);
    var q := lo;
    while q + 5 <= hi && s[q] != 0
      invariant lo <= q <= hi && q == lo + 5 * (|rs| - |rest|) && |rest| <= |rs|
      invariant Holds(s[..], q, hi, rest, slack) && s[..] == old(s[..])
    {
      HoldsHead(s[..], q, hi, rest, slack);
      rest := rest[1..];
      q := q + 5;
    }
    HoldsHead(s[..], q, hi, rest, slack);
    if q + 15 >= hi { return false; }
    PutThree(s, lo, q, hi, pipe, h, rs, slack);
    ok := true;
  }

  method PutThree(s: array<word>, lo: nat, q: nat, hi: nat, pipe: nat, h: seq<word>, ghost rs: seq<Record>,
                  ghost slack: nat)
    requires pipe + 22 < FIELD && |h| == 3 && lo <= q <= hi <= s.Length && hi - q == slack > 15
    requires s[lo..q] == EncodeRecords(rs) && s[q..hi] == Zeros(slack)
    modifies s
    ensures s[..lo] == old(s[..lo]) && s[hi..] == old(s[hi..])
    ensures s[lo..hi] == EncodeRecords(rs + Offchip(pipe, h)) + Zeros(slack - 15)
  {
    ghost var before := s[..];
    Store(s, q, [FreshHead(pipe + 4), h[0], 0, 0, 0, FreshHead(pipe + 13), h[1], 0, 0, 0,
                 FreshHead(pipe + 22), h[2], 0, 0, 0]);
    ThreeFresh(pipe, h);
    Extended(before, s[..], lo, q, hi, rs, Offchip(pipe, h), slack);
  }

  lemma ThreeFresh(pipe: nat, h: seq<word>)
    requires pipe + 22 < FIELD && |h| == 3
    ensures EncodeRecords(Offchip(pipe, h))
            == [FreshHead(pipe + 4), h[0], 0, 0, 0, FreshHead(pipe + 13), h[1], 0, 0, 0,
                FreshHead(pipe + 22), h[2], 0, 0, 0]
  {
    var a, b, c := Fresh(pipe + 4, h[0]), Fresh(pipe + 13, h[1]), Fresh(pipe + 22, h[2]);
    assert Offchip(pipe, h) == [a] + ([b] + ([c] + []));
    EncodeRecordsCons(a, [b] + ([c] + []), []);
    EncodeRecordsCons(b, [c] + [], []);
    EncodeRecordsCons(c, [], []);
  }

  // ---- over the blocks of a table ----

  type Encoder = Block -> seq<word>

  /** Blocks and the terminal token, as words. */
  function Tail(e: Encoder, bs: seq<Block>, end: word): seq<word> {
    if bs == [] then [TERMINAL, end] else e(bs[0]) + Tail(e, bs[1..], end)
  }

  /** The words of a block once edited. */
  function Edited(f: Edit): Encoder {
    (b: Block) => if f(b).Valid() then EncodeBlock(f(b)) else []
  }

  function Unedited(): Edit { (b: Block) => b }

  /** e writes the blocks f makes. */
  ghost predicate Writes(f: Edit, e: Encoder) {
    forall b: Block {:trigger f(b)} :: f(b).Valid() ==> e(b) == EncodeBlock(f(b))
  }

  predicate AllValid(bs: seq<Block>) { bs == [] || (bs[0].Valid() && AllValid(bs[1..])) }

  lemma {:induction false} AllValidIs(bs: seq<Block>)
    requires forall b <- bs :: b.Valid()
    ensures AllValid(bs)
  {
    if bs != [] {
      assert bs[0] in bs;
      AllValidIs(bs[1..]);
    }
  }

  lemma {:induction false} TailIs(f: Edit, bs: seq<Block>, end: word)
    requires forall b <- EditBlocks(f, bs) :: b.Valid()
    ensures Tail(Edited(f), bs, end) == EncodeBlocks(EditBlocks(f, bs)) + [TERMINAL, end]
  {
    if bs == [] {
      assert EncodeBlocks([]) + [TERMINAL, end] == [TERMINAL, end];
    } else {
      var all := EditBlocks(f, bs);
      assert all[0] in all && all[1..] == EditBlocks(f, bs[1..]);
      TailIs(f, bs[1..], end);
      Assoc(EncodeBlock(all[0]), EncodeBlocks(all[1..]), [TERMINAL, end]);
    }
  }

  /** Between blocks: the words from t on still hold `rest`, and the words before t followed by
      the edited `rest` make up `whole`. */
  predicate Sweeping(e: Encoder, e': Encoder, s: seq<word>, t: nat, rest: seq<Block>, end: word, whole: seq<word>) {
    4 <= t <= |s| && s[t..] == Tail(e, rest, end) && s[..t] + Tail(e', rest, end) == whole
  }

  /** The block at t. */
  predicate At(s: seq<word>, t: nat, b: Block) {
    b.Valid() && t + b.Size() <= |s| && s[t..t + b.Size()] == EncodeBlock(b)
  }

  /** From s to s' the words t..k become w, and nothing else changes. */
  predicate Becomes(s: seq<word>, s': seq<word>, t: nat, k: nat, w: seq<word>) {
    t <= k <= |s| == |s'| && s'[..t] == s[..t] && s'[k..] == s[k..] && s'[t..k] == w
  }

  /** The word at t, and the block it starts. */
  lemma SweepToken(e: Encoder, e': Encoder, s: seq<word>, t: nat, rest: seq<Block>, end: word, whole: seq<word>)
    requires Sweeping(e, e', s, t, rest, end, whole)
    ensures rest == [] ==> t + 2 == |s| && s[t] == TERMINAL && s == whole
    ensures rest != [] ==>
              var k := t + |e(rest[0])|;
              k <= |s| && s[t..k] == e(rest[0]) && s[k..] == Tail(e, rest[1..], end)
  {
    if rest != [] {
      CutAppend(e(rest[0]), Tail(e, rest[1..], end), |e(rest[0])|);
      CutDrop(s, t, |e(rest[0])|);
    } else {
      assert s[t] == s[t..][0] && |s[t..]| == 2;
      CutDrop(s, 0, t);
    }
  }

  lemma SweepStep(e: Encoder, e': Encoder, s: seq<word>, s': seq<word>, t: nat, k: nat, rest: seq<Block>, end: word,
      whole: seq<word>)
    requires Sweeping(e, e', s, t, rest, end, whole) && rest != [] && k == t + |e(rest[0])| <= |s|
    requires |s'| == |s| && s'[..t] == s[..t] && s'[k..] == s[k..] && s'[t..k] == e'(rest[0])
    ensures Sweeping(e, e', s', k, rest[1..], end, whole)
  {
    SweepToken(e, e', s, t, rest, end, whole);
    StepWords(s, s', t, k, e'(rest[0]), Tail(e', rest[1..], end), whole);
  }

  /** A sweep over the blocks of a table: what it reads and writes, and its invariant. `inv` is a
      function value so that the loops can carry it without looking inside. */
  datatype Sweep = Sweep(e: Encoder, e': Encoder, end: word, whole: seq<word>,
      inv: (seq<word>, nat, seq<Block>) -> bool) {
    /** Before t the blocks are edited, from t on `rest` is still to edit. */
    ghost predicate Inv(s: seq<word>, t: nat, rest: seq<Block>) {
      AllValid(rest) && Sweeping(e, e', s, t, rest, end, whole)
    }

    ghost predicate Of(f: Edit) {
      Writes(Unedited(), e) && Writes(f, e') &&
      forall s: seq<word>, t: nat, rest: seq<Block> {:trigger Inv(s, t, rest)} :: inv(s, t, rest) <==> Inv(s, t, rest)
    }
  }

  lemma SweepStart(f: Edit, t0: Table) returns (w: Sweep)
    requires t0.Valid() && forall b <- t0.blocks :: Keeps(f, b)
    ensures EditTable(f, t0).Valid() && w.whole == Encode(EditTable(f, t0))
    ensures w.Of(f) && w.inv(Encode(t0), 4, t0.blocks)
  {
    EditValid(f, t0);
    assert EditBlocks(Unedited(), t0.blocks) == t0.blocks;
    AllValidIs(t0.blocks);
    TailIs(Unedited(), t0.blocks, t0.end);
    TailIs(f, t0.blocks, t0.end);
    CutAppend(t0.header, EncodeBlocks(t0.blocks) + [TERMINAL, t0.end], 4);
    Assoc(t0.header, EncodeBlocks(t0.blocks), [TERMINAL, t0.end]);
    Assoc(t0.header, EncodeBlocks(EditBlocks(f, t0.blocks)), [TERMINAL, t0.end]);
    var e, e', end, whole := Edited(Unedited()), Edited(f), t0.end, Encode(EditTable(f, t0));
    w := Sweep(e, e', end, whole, (s: seq<word>, t: nat, rest: seq<Block>) =>
      AllValid(rest) && Sweeping(e, e', s, t, rest, end, whole));
    assert w.Inv(Encode(t0), 4, t0.blocks);
  }

  lemma Wrote(f: Edit, e: Encoder, b: Block)
    requires Writes(f, e) && f(b).Valid()
    ensures e(b) == EncodeBlock(f(b))
  {
  }

  /** The word at t. */
  lemma Token(w: Sweep, f: Edit, s: seq<word>, t: nat, rest: seq<Block>)
    requires w.Of(f) && w.inv(s, t, rest)
    ensures t < |s| && (rest == [] <==> s[t] == TERMINAL)
    ensures rest == [] ==> s == w.whole
    ensures rest != [] ==> s[t] / 0x1_0000 == rest[0].Size()
  {
    assert w.Inv(s, t, rest);
    SweepToken(w.e, w.e', s, t, rest, w.end, w.whole);
    if rest != [] {
      Wrote(Unedited(), w.e, rest[0]);
      assert s[t] == s[t..t + rest[0].Size()][0];
    }
  }

  /** The block at t, before its edit is read off. */
  ghost predicate Unread(w: Sweep, f: Edit, s: seq<word>, t: nat, b: Block) {
    w.Of(f) && b.Valid() && t + b.Size() <= |s| && s[t..t + b.Size()] == w.e(b)
  }

  lemma Read(w: Sweep, f: Edit, s: seq<word>, t: nat, rest: seq<Block>)
    requires w.Of(f) && w.inv(s, t, rest) && rest != []
    ensures Unread(w, f, s, t, rest[0])
  {
    assert w.Inv(s, t, rest);
    SweepToken(w.e, w.e', s, t, rest, w.end, w.whole);
    Wrote(Unedited(), w.e, rest[0]);
  }

  lemma UnreadAt(w: Sweep, f: Edit, s: seq<word>, t: nat, b: Block)
    requires Unread(w, f, s, t, b)
    ensures At(s, t, b) && t < |s| && s[t] / 0x1_0000 == b.Size() && (s[t] % 0x1_0000 == RELOCATIONS <==> b.Relocs?)
  {
    Wrote(Unedited(), w.e, b);
    assert s[t] == s[t..t + b.Size()][0];
  }

  lemma NextBlock(w: Sweep, f: Edit, s: seq<word>, s': seq<word>, t: nat, k: nat, rest: seq<Block>)
    requires w.Of(f) && w.inv(s, t, rest) && rest != [] && rest[0].Valid() && k == t + rest[0].Size()
    requires Becomes(s, s', t, k, w.e'(rest[0]))
    ensures w.inv(s', k, rest[1..])
  {
    Wrote(Unedited(), w.e, rest[0]);
    assert w.Inv(s, t, rest);
    SweepStep(w.e, w.e', s, s', t, k, rest, w.end, w.whole);
    assert w.Inv(s', k, rest[1..]);
  }

  lemma StepWords(s: seq<word>, s': seq<word>, t: nat, k: nat, head: seq<word>, tail: seq<word>, whole: seq<word>)
    requires t <= k <= |s| == |s'| && s'[..t] == s[..t] && s'[t..k] == head
    requires s[..t] + (head + tail) == whole
    ensures s'[..k] + tail == whole
  {
    SplitTake(s', t, k);
    Assoc(s[..t], head, tail);
  }

  lemma SplitTake<T>(s: seq<T>, i: nat, j: nat)
    requires i <= j <= |s|
    ensures s[..j] == s[..i] + s[i..j]
  {
  }

  /** The body of the relocation block at t. */
  lemma BodyOf(s: seq<word>, t: nat, b: Block)
    requires b.Relocs? && b.Valid() && t + b.Size() <= |s| && s[t..t + b.Size()] == EncodeBlock(b)
    ensures Holds(s, t + 3, t + b.Size(), b.records, b.slack)
    ensures s[t..t + 3] == [s[t], b.base, b.base2] && s[t] == b.Size() * 0x1_0000 + RELOCATIONS
  {
    var head: seq<word> := [b.Size() * 0x1_0000 + RELOCATIONS, b.base, b.base2];
    Assoc(head, EncodeRecords(b.records), Zeros(b.slack));
    CutAppend(head, EncodeRecords(b.records) + Zeros(b.slack), 3);
    CutWindow(s, t, t + b.Size(), 3);
    assert s[t..t + 3][0] == s[t];
  }

  /** Editing the body edits the block. */
  lemma BodyEdited(w: Sweep, f: Edit, s: seq<word>, s': seq<word>, t: nat, b: Block)
    requires Unread(w, f, s, t, b) && b.Relocs? && |s'| == |s| && Keeps(f, b)
    requires f(b).base == b.base && f(b).base2 == b.base2
    requires s'[..t + 3] == s[..t + 3] && s'[t + b.Size()..] == s[t + b.Size()..]
    requires s'[t + 3..t + b.Size()] == EncodeRecords(f(b).records) + Zeros(f(b).slack)
    ensures Becomes(s, s', t, t + b.Size(), w.e'(b))
  {
    UnreadAt(w, f, s, t, b);
    BodyOf(s, t, b);
    TakeWindow(s', t + 3, 0, t);
    TakeWindow(s, t + 3, 0, t);
    TakeWindow(s', t + 3, t, t + 3);
    TakeWindow(s, t + 3, t, t + 3);
    assert s'[..t] == s'[0..t] && s[..t] == s[0..t];
    Split(s', t, t + 3, t + b.Size());
    Assoc([s[t], b.base, b.base2], EncodeRecords(f(b).records), Zeros(f(b).slack));
    Wrote(f, w.e', b);
  }

  /** A block that is not edited stays. */
  lemma NotEdited(w: Sweep, f: Edit, s: seq<word>, t: nat, b: Block)
    requires Unread(w, f, s, t, b) && b.Plain? && Keeps(f, b)
    ensures Becomes(s, s, t, t + b.Size(), w.e'(b))
  {
    UnreadAt(w, f, s, t, b);
    Wrote(f, w.e', b);
  }

  predicate RowsOkIn(pipe: nat, bs: seq<Block>) {
    bs == [] || ((bs[0].Relocs? ==> RowsOk(pipe, bs[0].records)) && RowsOkIn(pipe, bs[1..]))
  }

  method DropRowsBlock(s: array<word>, t: nat, pipe: nat, ghost w: Sweep, ghost b: Block) returns (ok: bool)
    requires t < s.Length && Unread(w, DropRows(pipe), s[..], t, b)
    modifies s
    ensures ok <==> (b.Relocs? ==> RowsOk(pipe, b.records))
    ensures ok ==> Becomes(old(s[..]), s[..], t, t + b.Size(), w.e'(b))
  {
    ghost var before := s[..];
    DropRowsKeeps(pipe, b);
    UnreadAt(w, DropRows(pipe), before, t, b);
    ok := true;
    if s[t] % 0x1_0000 == RELOCATIONS {
      ok := DropRowsBody(s, t, t + s[t] / 0x1_0000, pipe, w, b);
    } else {
      NotEdited(w, DropRows(pipe), before, t, b);
    }
  }

  method DropRowsBody(s: array<word>, t: nat, end: nat, pipe: nat, ghost w: Sweep, ghost b: Block) returns (ok: bool)
    requires t < s.Length && Unread(w, DropRows(pipe), s[..], t, b) && Keeps(DropRows(pipe), b)
    requires b.Relocs? && end == t + b.Size() && At(s[..], t, b)
    modifies s
    ensures ok <==> RowsOk(pipe, b.records)
    ensures ok ==> Becomes(old(s[..]), s[..], t, t + b.Size(), w.e'(b))
  {
    ghost var before := s[..];
    BodyOf(before, t, b);
    ok := DropRowsIn(s, t + 3, end, pipe, b.records, b.slack);
    if ok { BodyEdited(w, DropRows(pipe), before, s[..], t, b); }
  }

  method DropRowsAt(s: array<word>, t: nat, pipe: nat, ghost w: Sweep, ghost rest: seq<Block>) returns (ok: bool)
    requires t < s.Length && rest != [] && w.Of(DropRows(pipe)) && w.inv(s[..], t, rest)
    modifies s
    ensures ok ==> w.inv(s[..], t + rest[0].Size(), rest[1..])
    ensures !ok ==> !RowsOkIn(pipe, rest)
    ensures ok ==> (RowsOkIn(pipe, rest) <==> RowsOkIn(pipe, rest[1..]))
  {
    ghost var before := s[..];
    Read(w, DropRows(pipe), before, t, rest);
    ok := DropRowsBlock(s, t, pipe, w, rest[0]);
    if ok { NextBlock(w, DropRows(pipe), before, s[..], t, t + rest[0].Size(), rest); }
  }

  /** The row-store filter over the whole table. */
  method DropRowStores(s: array<word>, pipe: nat, ghost t0: Table) returns (ok: bool)
    requires t0.Valid() && s[..] == Encode(t0)
    modifies s
    ensures ok <==> RowsOkIn(pipe, t0.blocks)
    ensures EditTable(DropRows(pipe), t0).Valid()
    ensures ok ==> s[..] == Encode(EditTable(DropRows(pipe), t0))
  {
    ghost var w := StartDropRows(pipe, t0);
    ok := DropRowsSweep(s, pipe, w, t0.blocks);
  }

  /** Its loop over the blocks. */
  method DropRowsSweep(s: array<word>, pipe: nat, ghost w: Sweep, ghost blocks: seq<Block>) returns (ok: bool)
    requires w.Of(DropRows(pipe)) && w.inv(s[..], 4, blocks)
    modifies s
    ensures ok <==> RowsOkIn(pipe, blocks)
    ensures ok ==> s[..] == w.whole
  {
    ghost var rest, all := blocks, RowsOkIn(pipe, blocks);
    ok := true;
    var t := 4;
    while t < s.Length
      invariant w.inv(s[..], t, rest)
      invariant all <==> RowsOkIn(pipe, rest)
    {
      Token(w, DropRows(pipe), s[..], t, rest);
      if s[t] == TERMINAL { break; }
      var n := s[t] / 0x1_0000;
      ok := DropRowsAt(s, t, pipe, w, rest);
      if !ok { return; }
      rest := rest[1..];
      t := t + n;
    }
    Token(w, DropRows(pipe), s[..], t, rest);
  }

  lemma StartDropRows(pipe: nat, t0: Table) returns (w: Sweep)
    requires t0.Valid()
    ensures EditTable(DropRows(pipe), t0).Valid() && w.whole == Encode(EditTable(DropRows(pipe), t0))
    ensures w.Of(DropRows(pipe)) && w.inv(Encode(t0), 4, t0.blocks)
  {
    forall b | b in t0.blocks ensures Keeps(DropRows(pipe), b) { DropRowsKeeps(pipe, b); }
    w := SweepStart(DropRows(pipe), t0);
  }

  // ---- cloning ----

  predicate ClonesOkIn(c: Clones, bs: seq<Block>)
    requires c.Valid()
  {
    bs == [] || ((bs[0].Relocs? ==> c.Ok(bs[0].records) && 5 * |c.All(bs[0].records)| < bs[0].slack) &&
        ClonesOkIn(c, bs[1..]))
  }

  lemma {:induction false} EachClonesOk(c: Clones, bs: seq<Block>)
    requires c.Valid() && ClonesOkIn(c, bs)
    ensures forall b <- bs :: b.Relocs? ==> 5 * |c.All(b.records)| < b.slack
  {
    if bs != [] { EachClonesOk(c, bs[1..]); }
  }

  function ClonesOf(c: Clones, b: Block): nat
    requires c.Valid()
  {
    if b.Relocs? then |c.All(b.records)| else 0
  }

  function ClonesIn(c: Clones, bs: seq<Block>): nat
    requires c.Valid()
  {
    if bs == [] then 0 else ClonesOf(c, bs[0]) + ClonesIn(c, bs[1..])
  }

  method CloneBlock(s: array<word>, t: nat, c: Clones, ghost w: Sweep, ghost b: Block) returns (ok: bool, n: nat)
    requires c.Valid() && t < s.Length && Unread(w, c.Edit(), s[..], t, b)
    modifies s
    ensures ok <==> (b.Relocs? ==> c.Ok(b.records) && 5 * |c.All(b.records)| < b.slack)
    ensures ok ==> n == ClonesOf(c, b) && Becomes(old(s[..]), s[..], t, t + b.Size(), w.e'(b))
  {
    ghost var before := s[..];
    CloneKeeps(c, b);
    UnreadAt(w, c.Edit(), before, t, b);
    ok, n := true, 0;
    if s[t] % 0x1_0000 == RELOCATIONS {
      ok, n := CloneBody(s, t, t + s[t] / 0x1_0000, c, w, b);
    } else {
      NotEdited(w, c.Edit(), before, t, b);
    }
  }

  method CloneBody(s: array<word>, t: nat, end: nat, c: Clones, ghost w: Sweep, ghost b: Block)
    returns (ok: bool, n: nat)
    requires c.Valid() && t < s.Length && Unread(w, c.Edit(), s[..], t, b) && Keeps(c.Edit(), b)
    requires b.Relocs? && end == t + b.Size() && At(s[..], t, b)
    modifies s
    ensures ok <==> c.Ok(b.records) && 5 * |c.All(b.records)| < b.slack
    ensures ok ==> n == ClonesOf(c, b) && Becomes(old(s[..]), s[..], t, t + b.Size(), w.e'(b))
  {
    ghost var before := s[..];
    BodyOf(before, t, b);
    ok, n := CloneIn(s, t + 3, end, c, b.records, b.slack);
    if ok {
      SameTake(before, s[..], t, t + 3);
      BodyEdited(w, c.Edit(), before, s[..], t, b);
    }
  }

  lemma SameTake(s: seq<word>, s': seq<word>, i: nat, j: nat)
    requires i <= j <= |s| == |s'| && s[..j] == s'[..j]
    ensures s[..i] == s'[..i]
  {
    assert s[..j][..i] == s[..i] && s'[..j][..i] == s'[..i];
  }

  method CloneAt(s: array<word>, t: nat, c: Clones, ghost w: Sweep, ghost rest: seq<Block>) returns (ok: bool, n: nat)
    requires c.Valid() && t < s.Length && rest != [] && w.Of(c.Edit()) && w.inv(s[..], t, rest)
    modifies s
    ensures ok ==> w.inv(s[..], t + rest[0].Size(), rest[1..]) && n == ClonesOf(c, rest[0])
    ensures !ok ==> !ClonesOkIn(c, rest)
    ensures ok ==> (ClonesOkIn(c, rest) <==> ClonesOkIn(c, rest[1..]))
  {
    ghost var before := s[..];
    Read(w, c.Edit(), before, t, rest);
    ok, n := CloneBlock(s, t, c, w, rest[0]);
    if ok { NextBlock(w, c.Edit(), before, s[..], t, t + rest[0].Size(), rest); }
  }

  lemma StartClones(c: Clones, t0: Table) returns (w: Sweep)
    requires c.Valid() && t0.Valid()
    ensures EditTable(c.Edit(), t0).Valid() && w.whole == Encode(EditTable(c.Edit(), t0))
    ensures w.Of(c.Edit()) && w.inv(Encode(t0), 4, t0.blocks)
  {
    forall b | b in t0.blocks ensures Keeps(c.Edit(), b) { CloneKeeps(c, b); }
    w := SweepStart(c.Edit(), t0);
  }

  /** The cloning pass over the whole table; `added` clones in all. */
  method CloneRelocations(s: array<word>, c: Clones, ghost t0: Table) returns (ok: bool, added: nat)
    requires c.Valid() && t0.Valid() && s[..] == Encode(t0)
    modifies s
    ensures ok <==> ClonesOkIn(c, t0.blocks)
    ensures EditTable(c.Edit(), t0).Valid()
    ensures ok ==> s[..] == Encode(EditTable(c.Edit(), t0)) && added == ClonesIn(c, t0.blocks)
  {
    ghost var w := StartClones(c, t0);
    ok, added := CloneSweep(s, c, w, t0.blocks);
  }

  /** Its loop over the blocks. */
  method CloneSweep(s: array<word>, c: Clones, ghost w: Sweep, ghost blocks: seq<Block>) returns (ok: bool, added: nat)
    requires c.Valid() && w.Of(c.Edit()) && w.inv(s[..], 4, blocks)
    modifies s
    ensures ok <==> ClonesOkIn(c, blocks)
    ensures ok ==> s[..] == w.whole && added == ClonesIn(c, blocks)
  {
    ghost var rest, all := blocks, ClonesOkIn(c, blocks);
    ok, added := true, 0;
    var t := 4;
    while t < s.Length
      invariant w.inv(s[..], t, rest)
      invariant all <==> ClonesOkIn(c, rest)
      invariant added + ClonesIn(c, rest) == ClonesIn(c, blocks)
    {
      Token(w, c.Edit(), s[..], t, rest);
      if s[t] == TERMINAL { break; }
      var n, more := s[t] / 0x1_0000, 0;
      ok, more := CloneAt(s, t, c, w, rest);
      if !ok { return; }
      added := added + more;
      rest := rest[1..];
      t := t + n;
    }
    Token(w, c.Edit(), s[..], t, rest);
  }

  // ---- rebinding ----

  function BoundOf(r: Rebind, b: Block): nat { if b.Relocs? then BoundCount(r, b.records) else 0 }

  function BoundIn(r: Rebind, bs: seq<Block>): nat {
    if bs == [] then 0 else BoundOf(r, bs[0]) + BoundIn(r, bs[1..])
  }

  method RebindBlock(s: array<word>, t: nat, r: Rebind, ghost w: Sweep, ghost b: Block) returns (n: nat)
    requires r.Valid() && t < s.Length && Unread(w, r.Edit(), s[..], t, b)
    modifies s
    ensures n == BoundOf(r, b) && Becomes(old(s[..]), s[..], t, t + b.Size(), w.e'(b))
  {
    ghost var before := s[..];
    RebindKeeps(r, b);
    UnreadAt(w, r.Edit(), before, t, b);
    var size := s[t] / 0x1_0000;
    n := 0;
    if s[t] % 0x1_0000 == RELOCATIONS {
      BodyOf(before, t, b);
      n := RebindIn(s, t + 3, t + size, r, b.records, b.slack);
      BodyEdited(w, r.Edit(), before, s[..], t, b);
    } else {
      NotEdited(w, r.Edit(), before, t, b);
    }
  }

  method RebindAt(s: array<word>, t: nat, r: Rebind, ghost w: Sweep, ghost rest: seq<Block>) returns (n: nat)
    requires r.Valid() && t < s.Length && rest != [] && w.Of(r.Edit()) && w.inv(s[..], t, rest)
    modifies s
    ensures n == BoundOf(r, rest[0]) && w.inv(s[..], t + rest[0].Size(), rest[1..])
  {
    ghost var before := s[..];
    Read(w, r.Edit(), before, t, rest);
    n := RebindBlock(s, t, r, w, rest[0]);
    NextBlock(w, r.Edit(), before, s[..], t, t + rest[0].Size(), rest);
  }

  lemma StartRebind(r: Rebind, t0: Table) returns (w: Sweep)
    requires r.Valid() && t0.Valid()
    ensures EditTable(r.Edit(), t0).Valid() && w.whole == Encode(EditTable(r.Edit(), t0))
    ensures w.Of(r.Edit()) && w.inv(Encode(t0), 4, t0.blocks)
  {
    forall b | b in t0.blocks ensures Keeps(r.Edit(), b) { RebindKeeps(r, b); }
    w := SweepStart(r.Edit(), t0);
  }

  /** The rebinding pass over the whole table. */
  method RebindLineBuffers(s: array<word>, r: Rebind, ghost t0: Table) returns (rebound: nat)
    requires r.Valid() && t0.Valid() && s[..] == Encode(t0)
    modifies s
    ensures EditTable(r.Edit(), t0).Valid()
    ensures s[..] == Encode(EditTable(r.Edit(), t0)) && rebound == BoundIn(r, t0.blocks)
  {
    ghost var w := StartRebind(r, t0);
    rebound := RebindSweep(s, r, w, t0.blocks);
  }

  method RebindSweep(s: array<word>, r: Rebind, ghost w: Sweep, ghost blocks: seq<Block>) returns (rebound: nat)
    requires r.Valid() && w.Of(r.Edit()) && w.inv(s[..], 4, blocks)
    modifies s
    ensures s[..] == w.whole && rebound == BoundIn(r, blocks)
  {
    ghost var rest := blocks;
    rebound := 0;
    var t := 4;
    while t < s.Length
      invariant w.inv(s[..], t, rest)
      invariant rebound + BoundIn(r, rest) == BoundIn(r, blocks)
    {
      Token(w, r.Edit(), s[..], t, rest);
      if s[t] == TERMINAL { break; }
      var n := s[t] / 0x1_0000;
      var more := RebindAt(s, t, r, w, rest);
      rebound := rebound + more;
      rest := rest[1..];
      t := t + n;
    }
    Token(w, r.Edit(), s[..], t, rest);
  }

  // ---- appending ----

  /** The two VDEnc bindings. */
  function Vdenc(vdenc: nat, h1: word, h2: word): seq<Record>
    requires vdenc + 65 < FIELD
  {
    [Fresh(vdenc + 62, h1), Fresh(vdenc + 65, h2)]
  }

  predicate Takes(n: nat, b: Block) { b.Relocs? && 5 * n < b.slack }

  function TakenIn(n: nat, bs: seq<Block>): nat {
    if bs == [] then 0 else (if Takes(n, bs[0]) then n else 0) + TakenIn(n, bs[1..])
  }

  method AppendTwoBlock(s: array<word>, t: nat, vdenc: nat, h1: word, h2: word, ghost w: Sweep,
      ghost b: Block) returns (n: nat)
    requires vdenc + 65 < FIELD && t < s.Length && Unread(w, Append(Vdenc(vdenc, h1, h2)), s[..], t, b)
    modifies s
    ensures n == (if Takes(2, b) then 2 else 0) && Becomes(old(s[..]), s[..], t, t + b.Size(), w.e'(b))
  {
    ghost var before := s[..];
    VdencValid(vdenc, h1, h2);
    AppendKeeps(Vdenc(vdenc, h1, h2), b);
    UnreadAt(w, Append(Vdenc(vdenc, h1, h2)), before, t, b);
    var size := s[t] / 0x1_0000;
    n := 0;
    if s[t] % 0x1_0000 == RELOCATIONS {
      BodyOf(before, t, b);
      n := AppendTwo(s, t + 3, t + size, vdenc, h1, h2, b.records, b.slack);
      SameTake(before, s[..], t, t + 3);
      BodyEdited(w, Append(Vdenc(vdenc, h1, h2)), before, s[..], t, b);
    } else {
      NotEdited(w, Append(Vdenc(vdenc, h1, h2)), before, t, b);
    }
  }

  lemma FreshValid(target: nat, handle: word)
    requires target < FIELD
    ensures Fresh(target, handle).Valid()
  {
    Odd(16 * target + 8);
  }

  lemma VdencValid(vdenc: nat, h1: word, h2: word)
    requires vdenc + 65 < FIELD
    ensures forall r <- Vdenc(vdenc, h1, h2) :: r.Valid()
  {
    FreshValid(vdenc + 62, h1);
    FreshValid(vdenc + 65, h2);
  }

  method AppendTwoAt(s: array<word>, t: nat, vdenc: nat, h1: word, h2: word, ghost w: Sweep,
      ghost rest: seq<Block>) returns (n: nat)
    requires vdenc + 65 < FIELD && t < s.Length && rest != [] && w.Of(Append(Vdenc(vdenc, h1, h2))) &&
             w.inv(s[..], t, rest)
    modifies s
    ensures n == (if Takes(2, rest[0]) then 2 else 0) && w.inv(s[..], t + rest[0].Size(), rest[1..])
  {
    ghost var before := s[..];
    Read(w, Append(Vdenc(vdenc, h1, h2)), before, t, rest);
    n := AppendTwoBlock(s, t, vdenc, h1, h2, w, rest[0]);
    NextBlock(w, Append(Vdenc(vdenc, h1, h2)), before, s[..], t, t + rest[0].Size(), rest);
  }

  lemma StartAppend(extra: seq<Record>, t0: Table) returns (w: Sweep)
    requires t0.Valid() && forall r <- extra :: r.Valid()
    ensures EditTable(Append(extra), t0).Valid() && w.whole == Encode(EditTable(Append(extra), t0))
    ensures w.Of(Append(extra)) && w.inv(Encode(t0), 4, t0.blocks)
  {
    forall b | b in t0.blocks ensures Keeps(Append(extra), b) { AppendKeeps(extra, b); }
    w := SweepStart(Append(extra), t0);
  }

  /** The VDEnc bindings, in every relocation block with room for them. */
  method AppendVdenc(s: array<word>, vdenc: nat, h1: word, h2: word, ghost t0: Table) returns (rebound: nat)
    requires vdenc + 65 < FIELD && t0.Valid() && s[..] == Encode(t0)
    modifies s
    ensures EditTable(Append(Vdenc(vdenc, h1, h2)), t0).Valid()
    ensures s[..] == Encode(EditTable(Append(Vdenc(vdenc, h1, h2)), t0)) && rebound == TakenIn(2, t0.blocks)
  {
    VdencValid(vdenc, h1, h2);
    ghost var w := StartAppend(Vdenc(vdenc, h1, h2), t0);
    rebound := VdencSweep(s, vdenc, h1, h2, w, t0.blocks);
  }

  method VdencSweep(s: array<word>, vdenc: nat, h1: word, h2: word, ghost w: Sweep, ghost blocks: seq<Block>)
    returns (rebound: nat)
    requires vdenc + 65 < FIELD && w.Of(Append(Vdenc(vdenc, h1, h2))) && w.inv(s[..], 4, blocks)
    modifies s
    ensures s[..] == w.whole && rebound == TakenIn(2, blocks)
  {
    ghost var rest := blocks;
    rebound := 0;
    var t := 4;
    while t < s.Length
      invariant w.inv(s[..], t, rest)
      invariant rebound + TakenIn(2, rest) == TakenIn(2, blocks)
    {
      Token(w, Append(Vdenc(vdenc, h1, h2)), s[..], t, rest);
      if s[t] == TERMINAL { break; }
      var n := s[t] / 0x1_0000;
      var more := AppendTwoAt(s, t, vdenc, h1, h2, w, rest);
      rebound := rebound + more;
      rest := rest[1..];
      t := t + n;
    }
    Token(w, Append(Vdenc(vdenc, h1, h2)), s[..], t, rest);
  }

  method AppendThreeBlock(s: array<word>, t: nat, pipe: nat, h: seq<word>, ghost w: Sweep,
      ghost b: Block) returns (ok: bool, n: nat)
    requires pipe + 22 < FIELD && |h| == 3 && t < s.Length && Unread(w, Append(Offchip(pipe, h)), s[..], t, b)
    modifies s
    ensures ok <==> (b.Relocs? ==> Takes(3, b))
    ensures ok ==> n == (if Takes(3, b) then 3 else 0) && Becomes(old(s[..]), s[..], t, t + b.Size(), w.e'(b))
  {
    ghost var before := s[..];
    OffchipValid(pipe, h);
    AppendKeeps(Offchip(pipe, h), b);
    UnreadAt(w, Append(Offchip(pipe, h)), before, t, b);
    var size := s[t] / 0x1_0000;
    ok, n := true, 0;
    if s[t] % 0x1_0000 == RELOCATIONS {
      BodyOf(before, t, b);
      ok := AppendThree(s, t + 3, t + size, pipe, h, b.records, b.slack);
      n := 3;
      if ok { BodyEdited(w, Append(Offchip(pipe, h)), before, s[..], t, b); }
    } else {
      NotEdited(w, Append(Offchip(pipe, h)), before, t, b);
    }
  }

  lemma OffchipValid(pipe: nat, h: seq<word>)
    requires pipe + 22 < FIELD && |h| == 3
    ensures forall r <- Offchip(pipe, h) :: r.Valid()
  {
    FreshValid(pipe + 4, h[0]);
    FreshValid(pipe + 13, h[1]);
    FreshValid(pipe + 22, h[2]);
  }

  predicate RoomIn(bs: seq<Block>) {
    bs == [] || ((bs[0].Relocs? ==> Takes(3, bs[0])) && RoomIn(bs[1..]))
  }

  method AppendThreeAt(s: array<word>, t: nat, pipe: nat, h: seq<word>, ghost w: Sweep, ghost rest: seq<Block>)
    returns (ok: bool, n: nat)
    requires pipe + 22 < FIELD && |h| == 3 && t < s.Length && rest != []
    requires w.Of(Append(Offchip(pipe, h))) && w.inv(s[..], t, rest)
    modifies s
    ensures ok ==> n == (if Takes(3, rest[0]) then 3 else 0) && w.inv(s[..], t + rest[0].Size(), rest[1..])
    ensures !ok ==> !RoomIn(rest)
    ensures ok ==> (RoomIn(rest) <==> RoomIn(rest[1..]))
  {
    ghost var before := s[..];
    Read(w, Append(Offchip(pipe, h)), before, t, rest);
    ok, n := AppendThreeBlock(s, t, pipe, h, w, rest[0]);
    if ok { NextBlock(w, Append(Offchip(pipe, h)), before, s[..], t, t + rest[0].Size(), rest); }
  }

  /** The off-chip line buffers, in every relocation block, refused if one lacks the room. */
  method AppendOffchip(s: array<word>, pipe: nat, h: seq<word>, ghost t0: Table) returns (ok: bool, rebound: nat)
    requires pipe + 22 < FIELD && |h| == 3 && t0.Valid() && s[..] == Encode(t0)
    modifies s
    ensures ok <==> RoomIn(t0.blocks)
    ensures EditTable(Append(Offchip(pipe, h)), t0).Valid()
    ensures ok ==> s[..] == Encode(EditTable(Append(Offchip(pipe, h)), t0)) && rebound == TakenIn(3, t0.blocks)
  {
    OffchipValid(pipe, h);
    ghost var w := StartAppend(Offchip(pipe, h), t0);
    ok, rebound := OffchipSweep(s, pipe, h, w, t0.blocks);
  }

  method OffchipSweep(s: array<word>, pipe: nat, h: seq<word>, ghost w: Sweep, ghost blocks: seq<Block>)
    returns (ok: bool, rebound: nat)
    requires pipe + 22 < FIELD && |h| == 3 && w.Of(Append(Offchip(pipe, h))) && w.inv(s[..], 4, blocks)
    modifies s
    ensures ok <==> RoomIn(blocks)
    ensures ok ==> s[..] == w.whole && rebound == TakenIn(3, blocks)
  {
    ghost var rest, all := blocks, RoomIn(blocks);
    ok, rebound := true, 0;
    var t := 4;
    while t < s.Length
      invariant w.inv(s[..], t, rest)
      invariant all <==> RoomIn(rest)
      invariant rebound + TakenIn(3, rest) == TakenIn(3, blocks)
    {
      Token(w, Append(Offchip(pipe, h)), s[..], t, rest);
      if s[t] == TERMINAL { break; }
      var n, more := s[t] / 0x1_0000, 0;
      ok, more := AppendThreeAt(s, t, pipe, h, w, rest);
      if !ok { return; }
      rebound := rebound + more;
      rest := rest[1..];
      t := t + n;
    }
    Token(w, Append(Offchip(pipe, h)), s[..], t, rest);
  }
}
