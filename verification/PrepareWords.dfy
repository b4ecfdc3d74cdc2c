/** What `prepare` makes of each relocation, said on its words: which records it drops, which it doubles,
    which buffer each of the others names, and which it adds. */
module PrepareWords {
  import opened Words
  import opened Sideband
  import opened Prepare
  import opened PrepareLoops
  import opened PrepareRun

  // ---- dropped records ----

  /** The row stores of the old pipe-buffer packet: the words 4, 13 and 22 behind its header. Exactly the
      others survive the first pass, and each dropped one must have the plain access bits. */
  lemma RowsOnWords(pipe: nat, rs: seq<Record>)
    ensures forall r :: r in Keep(pipe, rs) <==>
              r in rs && r.head / 32 % 0x10_0000 !in {pipe + 4, pipe + 13, pipe + 22}
    ensures RowsOk(pipe, rs) <==>
            forall k :: 0 <= k < |rs| ==> rs[k].head / 32 % 0x10_0000 in {pipe + 4, pipe + 13, pipe + 22} ==>
              rs[k].head < 0x8000_0000 && rs[k].head % 32 == 0x11
  {
    KeepIsFilter(pipe, rs);
    assert forall k :: 0 <= k < |rs| ==> rs[k] in rs;
  }

  // ---- doubled records ----

  /** The clones of a list of records: behind those of the first come those of the rest. A record whose
      target is a chroma word gets one for the next word; one for a word of the reconstructed surface's
      binding gets one for the same word of the reference surface's, the first with the surface id 5. */
  lemma ClonesOnWords(c: Clones, r: Record, rs: seq<Record>)
    requires c.Valid()
    ensures c.All([]) == []
    ensures var target := r.head / 32 % 0x10_0000;
            c.All([r] + rs) ==
            (if target in c.chroma then [r.(head := r.head + 32)] else []) +
            (if c.recon != 0 && c.reference != 0 && target == c.recon + 1 then
               [r.(head := r.head - c.recon * 32 + c.reference * 32, w2 := r.w2 % 0x1000_0000 + 0x5000_0000)]
             else if c.recon != 0 && c.reference != 0 && target == c.recon + 2 then
               [r.(head := r.head - c.recon * 32 + c.reference * 32)]
             else []) + c.All(rs)
  {
    assert ([r] + rs)[0] == r && ([r] + rs)[1..] == rs;
    if c.IsChroma(r) { RetargetIs(r.head, Target(r.head) + 1); }
    if c.IsSurface(r) { RetargetIs(r.head, c.reference + (Target(r.head) - c.recon)); }
  }

  lemma RetargetIs(w: word, target: nat)
    requires target < FIELD
    ensures Retarget(w, target) == w - w / 32 % 0x10_0000 * 32 + target * 32
  {
    RetargetSelf(w);
  }

  /** Each chroma record must be tiled, with the row-offset access bits. */
  lemma ClonesOkOnWords(c: Clones, rs: seq<Record>)
    ensures c.Ok(rs) <==>
            forall k :: 0 <= k < |rs| && rs[k].head / 32 % 0x10_0000 in c.chroma ==>
              rs[k].head >= 0x8000_0000 && rs[k].head % 32 == 0x15
  {
    assert forall k :: 0 <= k < |rs| ==> rs[k] in rs;
  }

  // ---- line buffers ----

  /** What the passes make of a record: it keeps all its words but the handles; these become the k-th
      buffer's if it addresses word [7, 10, 16, 19, 25, 28][k] of the pipe-buffer packet, untiled; and stay
      otherwise. */
  lemma HandlesOnWords(j: Job, r: Record, r': Record)
    requires j.Valid() && r' == j.Line().Of(r)
    ensures r' == r.(handles := r'.handles)
    ensures r.head < 0x8000_0000 ==>
              forall k :: 0 <= k < 6 && r.head / 32 % 0x10_0000 == j.pipe + [7, 10, 16, 19, 25, 28][k] ==>
                r'.handles == j.handles[k]
    ensures r.head >= 0x8000_0000 ||
            (forall k :: 0 <= k < 6 ==> r.head / 32 % 0x10_0000 != j.pipe + [7, 10, 16, 19, 25, 28][k]) ==>
            r' == r
  {
    var k := j.Line().Slot(r);
    if k < 6 { assert r.head / 32 % 0x10_0000 == j.pipe + [7, 10, 16, 19, 25, 28][k]; }
  }

  /** Record k of block i of the sideband that is handed on, counting the block's own records and then its
      clones, against what it was in the table the passes start from. */
  lemma LineBuffersOnWords(j: Job, t: Table, i: nat, k: nat, all: seq<Record>)
    requires j.Valid() && t.Valid() && j.Accepts(t) && i < |t.blocks| && t.blocks[i].Relocs?
    requires all == t.blocks[i].records + j.clones.All(t.blocks[i].records) && k < |all|
    ensures |Final(j, t).blocks| == |t.blocks| && Final(j, t).blocks[i].Relocs?
    ensures |all| <= |Final(j, t).blocks[i].records|
    ensures var (r, r') := (all[k], Final(j, t).blocks[i].records[k]);
            r' == r.(handles := r'.handles) &&
            (r.head < 0x8000_0000 ==>
               forall n :: 0 <= n < 6 && r.head / 32 % 0x10_0000 == j.pipe + [7, 10, 16, 19, 25, 28][n] ==>
                 r'.handles == j.handles[n]) &&
            (r.head >= 0x8000_0000 ||
             (forall n :: 0 <= n < 6 ==> r.head / 32 % 0x10_0000 != j.pipe + [7, 10, 16, 19, 25, 28][n]) ==>
             r' == r)
  {
    VdencBoundExactly(j, t);
    assert Final(j, t).blocks[i].records[k] == j.Line().All(all)[k];
    HandlesOnWords(j, all[k], j.Line().Of(all[k]));
  }

  // ---- how many ----

  function Count(f: Record -> bool, rs: seq<Record>): nat {
    if rs == [] then 0 else (if f(rs[0]) then 1 else 0) + Count(f, rs[1..])
  }

  /** Over all relocation blocks, with their clones. */
  function CountIn(f: Record -> bool, c: Clones, bs: seq<Block>): nat
    requires c.Valid()
  {
    if bs == [] then 0
    else (if bs[0].Relocs? then Count(f, bs[0].records + c.All(bs[0].records)) else 0) + CountIn(f, c, bs[1..])
  }

  lemma {:induction false} BoundIsCount(f: Record -> bool, r: Rebind, rs: seq<Record>)
    requires forall x :: f(x) <==> r.Bound(x)
    ensures BoundCount(r, rs) == Count(f, rs)
  {
    if rs != [] { BoundIsCount(f, r, rs[1..]); }
  }

  lemma {:induction false} BoundInIsCount(f: Record -> bool, j: Job, bs: seq<Block>)
    requires j.Valid() && forall x :: f(x) <==> j.Line().Bound(x)
    requires ClonesOkIn(j.clones, bs)
    ensures BoundIn(j.Line(), EditBlocks(j.clones.Edit(), bs)) == CountIn(f, j.clones, bs)
  {
    if bs != [] {
      BoundInIsCount(f, j, bs[1..]);
      var out := EditBlocks(j.clones.Edit(), bs);
      assert out[1..] == EditBlocks(j.clones.Edit(), bs[1..]);
      if bs[0].Relocs? { BoundIsCount(f, j.Line(), bs[0].records + j.clones.All(bs[0].records)); }
    }
  }

  /** The count the passes go by, of a table that is handed on: how many records, clones among them, are
      untiled and address one of the six words. */
  lemma LinesOnWords(j: Job, t: Table)
    requires j.Valid() && j.Accepts(t)
    ensures j.Lines(t) ==
            CountIn((r: Record) =>
                      r.head < 0x8000_0000 && r.head / 32 % 0x10_0000 in
                      {j.pipe + 7, j.pipe + 10, j.pipe + 16, j.pipe + 19, j.pipe + 25, j.pipe + 28}, j.clones, t.blocks)
  {
    BoundInIsCount((r: Record) =>
                     r.head < 0x8000_0000 && r.head / 32 % 0x10_0000 in
                     {j.pipe + 7, j.pipe + 10, j.pipe + 16, j.pipe + 19, j.pipe + 25, j.pipe + 28}, j, t.blocks);
  }

  // ---- added records ----

  lemma FreshRows(rows: seq<Record>, vdenc: nat, h1: word, h2: word)
    requires vdenc + 65 < FIELD && rows == Vdenc(vdenc, h1, h2)
    ensures |rows| == 2 && rows[0].head == (vdenc + 62) * 32 + 0x11 && rows[0].handles == h1 &&
            rows[1].head == (vdenc + 65) * 32 + 0x11 && rows[1].handles == h2
    ensures forall r <- rows :: r.w2 == r.w3 == r.w4 == 0
  {
  }

  lemma FreshMore(more: seq<Record>, pipe: nat, h: seq<word>)
    requires pipe + 22 < FIELD && |h| == 3 && more == Offchip(pipe, h)
    ensures |more| == 3 && more[0].head == (pipe + 4) * 32 + 0x11 && more[0].handles == h[0] &&
            more[1].head == (pipe + 13) * 32 + 0x11 && more[1].handles == h[1] &&
            more[2].head == (pipe + 22) * 32 + 0x11 && more[2].handles == h[2]
    ensures forall r <- more :: r.w2 == r.w3 == r.w4 == 0
  {
  }

  lemma {:induction false} RoomEach(bs: seq<Block>, i: nat)
    requires RoomIn(bs) && i < |bs| && bs[i].Relocs?
    ensures Takes(3, bs[i])
  {
    if i > 0 { RoomEach(bs[1..], i - 1); }
  }

  /** Of an accepted table six bound records mean that the VDEnc rows make them eight. */
  lemma EightOf(j: Job, t: Table)
    requires j.Valid() && t.Valid() && j.Accepts(t)
    ensures j.Eight(t) == 8 <==> j.Lines(t) == 6 || j.Lines(t) == 8
  {
    var k := TakenMultiple(j.Bound(t).blocks);
    VdencBoundExactly(j, t);
  }

  lemma VdencRoom(j: Job, t: Table, i: nat)
    requires j.Valid() && i < |t.blocks| && t.blocks[i].Relocs?
    requires 5 * |j.clones.All(t.blocks[i].records)| < t.blocks[i].slack
    ensures VdencIn(j, t, i) == (if j.vdenc.Some? && j.Lines(t) == 6 &&
                                 t.blocks[i].slack > 5 * |j.clones.All(t.blocks[i].records)| + 10
                                 then j.VdencRows() else [])
  {
  }

  lemma OffchipRoom(j: Job, t: Table, i: nat)
    requires j.Valid() && t.Valid() && j.Accepts(t) && i < |t.blocks| && t.blocks[i].Relocs?
    ensures OffchipIn(j, t, i) == if j.offchip && (j.Lines(t) == 6 || j.Lines(t) == 8) then j.OffchipRows() else []
  {
    EightOf(j, t);
    if j.offchip && j.Eight(t) == 8 { RoomEach(j.AfterVdenc(t).blocks, i); }
  }

  /** The rows behind a block's own records and clones. The VDEnc rows are there if six line buffers were
      bound and the zero tail is longer than both, for the words 62 and 65 of the VDEnc packet and the
      seventh and eighth buffer. Behind them, in a wide frame, come the off-chip rows, for the words 4, 13
      and 22 of the pipe-buffer packet and the last three buffers. */
  lemma NewRowsOnWords(j: Job, t: Table, i: nat) returns (own: seq<Record>, rows: seq<Record>, more: seq<Record>)
    requires j.Valid() && t.Valid() && j.Accepts(t) && i < |t.blocks| && t.blocks[i].Relocs?
    ensures Final(j, t).blocks[i].Relocs? && Final(j, t).blocks[i].records == own + rows + more
    ensures |own| == |t.blocks[i].records| + |j.clones.All(t.blocks[i].records)|
    ensures rows != [] <==>
            j.vdenc.Some? && j.Lines(t) == 6 && t.blocks[i].slack > 5 * |j.clones.All(t.blocks[i].records)| + 10
    ensures rows != [] ==>
              |rows| == 2 && rows[0].head == (j.vdenc.value + 62) * 32 + 0x11 && rows[0].handles == j.handles[6] &&
              rows[1].head == (j.vdenc.value + 65) * 32 + 0x11 && rows[1].handles == j.handles[7]
    ensures more != [] <==> j.offchip && (j.Lines(t) == 6 || j.Lines(t) == 8)
    ensures more != [] ==>
              |more| == 3 && more[0].head == (j.pipe + 4) * 32 + 0x11 && more[0].handles == j.handles[8] &&
              more[1].head == (j.pipe + 13) * 32 + 0x11 && more[1].handles == j.handles[9] &&
              more[2].head == (j.pipe + 22) * 32 + 0x11 && more[2].handles == j.handles[10]
    ensures forall r <- rows + more :: r.w2 == r.w3 == r.w4 == 0
  {
    VdencBoundExactly(j, t);
    EachClonesOk(j.clones, t.blocks);
    assert t.blocks[i] in t.blocks;
    own := j.Line().All(t.blocks[i].records + j.clones.All(t.blocks[i].records));
    rows, more := VdencIn(j, t, i), OffchipIn(j, t, i);
    VdencRoom(j, t, i);
    OffchipRoom(j, t, i);
    if rows != [] { FreshRows(rows, j.vdenc.value, j.handles[6], j.handles[7]); }
    if more != [] { FreshMore(more, j.pipe, j.handles[8..]); }
  }
}
