/** `prepare` (prepare_gen12_probe.cpp) as a whole: from the incoming batch over the row-store filter, the
    rewrite, the sideband passes and the scratch buffers to what the executor answers, and who owns the
    scratch buffers then. */
module Submission {
  import opened Words
  import opened Sideband
  import opened Ownership
  import opened OwnershipBooks
  import opened OwnershipRuns
  import opened Prepare
  import opened PrepareLoops
  import opened PrepareRun
  import opened PrepareWords
  import opened Rewrite

  import OwnerTables
  import OwnershipBatches
  import OwnershipKeeps
  import RewriteLoops
  import RewriteMeaning
  import ScratchDesk

  const PIPE_BUFFERS: word := 0x7382_0077

  /** What `prepare` reads off the rewritten commands, if they have exactly one pipe-buffer packet. */
  datatype Found = Found(clones: Clones, pipe: nat, vdenc: Option<nat>) {
    predicate Valid() {
      clones.Valid() && pipe + 28 < FIELD && (vdenc.Some? ==> vdenc.value + 65 < FIELD)
    }
  }

  /** The used size the sideband names last, 0 if it names none. */
  function NamedUse(bs: seq<Block>, used: word): word {
    if bs == [] then used
    else NamedUse(bs[1..], if IsUsed(bs[0]) && |bs[0].payload| == 2 then bs[0].payload[0] else used)
  }

  /** The last of these replacements at a pipe-buffer packet, 0 if there is none. */
  function OldPipe(c: seq<word>, reps: seq<Replacement>, pipe: nat): nat {
    if reps == [] then pipe
    else OldPipe(c, reps[1..], if reps[0].at < |c| && c[reps[0].at] == PIPE_BUFFERS then reps[0].at else pipe)
  }

  /** The sizes of the eleven scratch buffers for a frame: six line buffers, the two VDEnc ones, and the three
      line buffers put off-chip in a wide frame. */
  function Sizes(width: nat, height: nat): (sizes: seq<nat>)
    ensures |sizes| == SCRATCH
  {
    var wc, hc := (width + 63) / 64 * 4, (height + 63) / 64 * 4;
    [16 * 64 * wc, 18 * 64 * hc, 4 * 64 * wc, 4 * 64 * hc, 10 * 64 * wc, 18 * 64 * hc, (width + 31) / 32 * 128,
     (width + 63) / 64 * ((height + 63) / 64) * 4, 8 * 64 * wc, 2 * 64 * wc, 5 * 64 * wc]
  }

  /** The used size is the first payload word of the last block of kind 0x8000 with two payload words, which
      is the last token 0x38000. */
  lemma {:induction false} UseOnWords(bs: seq<Block>, used: word, k: nat)
    requires k < |bs| && bs[k].Plain? && bs[k].kind == 0x8000 && |bs[k].payload| == 2
    requires forall j :: k < j < |bs| ==> !(bs[j].Plain? && bs[j].kind == 0x8000 && |bs[j].payload| == 2)
    ensures NamedUse(bs, used) == bs[k].payload[0]
    decreases k
  {
    var rest := bs[1..];
    assert forall j :: 0 <= j < |rest| ==> rest[j] == bs[j + 1];
    if k > 0 {
      UseOnWords(rest, if IsUsed(bs[0]) && |bs[0].payload| == 2 then bs[0].payload[0] else used, k - 1);
    } else {
      NoUse(rest, bs[0].payload[0]);
    }
  }

  lemma {:induction false} NoUse(bs: seq<Block>, used: word)
    requires forall j :: 0 <= j < |bs| ==> !(bs[j].Plain? && bs[j].kind == 0x8000 && |bs[j].payload| == 2)
    ensures NamedUse(bs, used) == used
  {
    if bs != [] { NoUse(bs[1..], used); }
  }

  /** The old pipe-buffer packet is that of the last replacement whose old header is 0x73820077. */
  lemma {:induction false} PipeOnWords(c: seq<word>, reps: seq<Replacement>, pipe: nat, k: nat)
    requires k < |reps| && reps[k].at < |c| && c[reps[k].at] == 0x73820077
    requires forall j :: k < j < |reps| ==> reps[j].at >= |c| || c[reps[j].at] != 0x73820077
    ensures OldPipe(c, reps, pipe) == reps[k].at
    decreases k
  {
    var rest := reps[1..];
    assert forall j :: 0 <= j < |rest| ==> rest[j] == reps[j + 1];
    if k > 0 {
      PipeOnWords(c, rest, if reps[0].at < |c| && c[reps[0].at] == PIPE_BUFFERS then reps[0].at else pipe, k - 1);
    } else {
      NoPipe(c, rest, reps[0].at);
    }
  }

  lemma {:induction false} NoPipe(c: seq<word>, reps: seq<Replacement>, pipe: nat)
    requires forall j :: 0 <= j < |reps| ==> reps[j].at >= |c| || c[reps[j].at] != 0x73820077
    ensures OldPipe(c, reps, pipe) == pipe
  {
    if reps != [] { NoPipe(c, reps[1..], pipe); }
  }

  /** One call: the two streams; the converted packets, None if one was refused; what a scan of rewritten
      commands finds; the size of the frame; the kernel's answers; and the executor's arguments. */
  datatype Call = Call(
    commands: seq<word>, sideband: seq<word>, reps: Option<seq<Replacement>>, find: Batch -> Option<Found>,
    width: nat, height: nat, creation: ScratchDesk.Plan, io: nat, pointers: bool, buffers: seq<nat>)
  {
    const offchip: bool := width > 2048

    ghost predicate Valid() {
      creation.Valid() && creation.sizes == Sizes(width, height) &&
      forall b: Batch :: find(b).Some? ==> find(b).value.Valid()
    }

    function Required(): nat { if offchip then 11 else 8 }

    function Incoming(): Option<Table> {
      if |commands| > 0x4_0000 || |sideband| > 0x4000 then None else Parse(sideband)
    }

    function In(): Batch
      requires Incoming().Some?
    {
      Batch(commands, sideband, NamedUse(Incoming().value.blocks, 0))
    }

    function Pipe(): nat
      requires reps.Some?
    {
      OldPipe(commands, reps.value, 0)
    }

    /** The incoming table without the row-store records. */
    function Cleaned(): (t: Table)
      requires Incoming().Some? && reps.Some?
      ensures t.Valid()
    {
      FramingIsGrammar(sideband);
      CleanValid(Pipe(), Incoming().value);
      EditTable(DropRows(Pipe()), Incoming().value)
    }

    /** What comes out of the rewrite, None where `prepare` gave up. */
    function Moved(): Option<Batch> {
      if Incoming().None? || !Accepts(In(), []) || reps.None? || Pipe() == 0 ||
         !RowsOkIn(Pipe(), Incoming().value.blocks) then None
      else Result(In().(sideband := Encode(Cleaned())), reps.value)
    }

    /** The sideband's table after the rewrite. */
    function MovedTable(): (t: Table)
      requires Moved().Some?
      ensures t.Valid() && Parse(Moved().value.sideband) == Some(t) && Encode(t) == Moved().value.sideband
    {
      RewriteMeaning.RelocationMeaning(In().(sideband := Encode(Cleaned())), reps.value);
      FramingIsGrammar(Moved().value.sideband);
      Parse(Moved().value.sideband).value
    }

    /** The buffer the kernel's answers make of the k-th request. */
    function Buffer(k: nat): Scratch
      requires k < |creation.sizes| == |creation.answers| && creation.page > 0
    {
      var a := creation.answers[k];
      Scratch(a.resource, a.address, ScratchDesk.Rounded(creation.sizes[k], creation.page),
              if a.meta.Some? then a.meta.value.0 else 0)
    }

    function Buffers(): (bs: seq<Scratch>)
      requires creation.Valid()
      ensures |bs| == Required()
    {
      seq(Required(), k requires 0 <= k < Required() => Buffer(k))
    }

    /** Their handles, and 0 for a buffer this call does without. */
    function Handles(): (hs: seq<word>)
      requires creation.Valid()
      ensures |hs| == SCRATCH
    {
      seq(SCRATCH, k requires 0 <= k < SCRATCH => if k < Required() then Buffer(k).handle else 0)
    }

    function JobFor(f: Found): (j: Job)
      requires creation.Valid()
    {
      Job(f.clones, f.pipe, f.vdenc, offchip, Handles())
    }

    /** The rewritten batch gets its clones. */
    predicate GetsClones(f: Found)
      requires Moved().Some? && f.Valid()
    {
      ClonesOkIn(f.clones, MovedTable().blocks) && ClonesIn(f.clones, MovedTable().blocks) == 5
    }

    /** Where `prepare` hands the batch to the executor. */
    predicate Submits()
      requires Valid()
    {
      Moved().Some? && find(Moved().value).Some? && creation.MakesAll(Required()) &&
      JobFor(find(Moved().value).value).Accepts(MovedTable()) && io != 0 && pointers
    }

    /** The table it hands over. */
    function Submitted(): (t: Table)
      requires Valid() && Submits()
      ensures t.Valid() && Parse(Encode(t)) == Some(t)
    {
      var j := JobFor(find(Moved().value).value);
      PreparedIsWalked(j, MovedTable());
      Final(j, MovedTable())
    }

    function Asked(): Request
      requires Valid() && Submits()
    {
      Request(creation.shared, io, pointers, Buffers(), Encode(Submitted()), buffers)
    }
  }

  /** The scratch buffers the executor takes over with this reply. */
  function Adopted(scratch: seq<Scratch>, reply: Reply): seq<Scratch> {
    if reply.Accepted? then scratch else []
  }

  lemma CleanValid(pipe: nat, t: Table)
    requires t.Valid()
    ensures EditTable(DropRows(pipe), t).Valid()
  {
    forall b | b in t.blocks ensures Keeps(DropRows(pipe), b) { DropRowsKeeps(pipe, b); }
    EditValid(DropRows(pipe), t);
  }

  /** The scratch buffers of a whole call that are taken over. */
  function Kept(c: Call, reply: Option<Reply>): seq<Scratch>
    requires c.creation.Valid()
  {
    if reply.Some? then Adopted(c.Buffers(), reply.value) else []
  }

  // ---- what the executor is asked ----

  /** The records of block i have these handles. */
  predicate Known(t: Table, i: nat, h: word) {
    i < |t.blocks| && t.blocks[i].Relocs? && exists r :: r in t.blocks[i].records && r.handles == h
  }

  /** The passes bind what was there to scratch buffers or leave it, and add only scratch buffers. */
  lemma FinalHandles(j: Job, t0: Table, i: nat, r: Record)
    requires j.Valid() && t0.Valid() && j.Accepts(t0)
    requires i < |t0.blocks| && Final(j, t0).blocks[i].Relocs? && r in Final(j, t0).blocks[i].records
    ensures Known(t0, i, r.handles) || r.handles in j.handles[..if j.offchip then 11 else 8]
  {
    var b := t0.blocks[i];
    assert b.Relocs?;
    VdencBoundExactly(j, t0);
    var all := b.records + j.clones.All(b.records);
    if r in j.Line().All(all) {
      var k :| 0 <= k < |all| && j.Line().All(all)[k] == r;
      BoundHandle(j, all[k]);
      CloneHandle(j.clones, b.records, all[k]);
      assert Known(t0, i, all[k].handles);
    } else {
      NewHandle(j, t0, i, r);
    }
  }

  lemma NewHandle(j: Job, t0: Table, i: nat, r: Record)
    requires j.Valid() && i < |t0.blocks| && r in VdencIn(j, t0, i) + OffchipIn(j, t0, i)
    ensures r.handles in j.handles[..if j.offchip then 11 else 8]
  {
    var hs := j.handles[..if j.offchip then 11 else 8];
    assert forall k :: 0 <= k < |hs| ==> j.handles[k] == hs[k] && j.handles[k] in hs;
    if r in VdencIn(j, t0, i) {
      assert r.handles == j.handles[6] || r.handles == j.handles[7];
    } else {
      assert r.handles == j.handles[8..][0] || r.handles == j.handles[8..][1] || r.handles == j.handles[8..][2];
    }
  }

  lemma BoundHandle(j: Job, r: Record)
    requires j.Valid()
    ensures j.Line().Of(r).handles == r.handles || j.Line().Of(r).handles in j.handles[..if j.offchip then 11 else 8]
  {
    var k, hs := j.Line().Slot(r), j.handles[..if j.offchip then 11 else 8];
    if k < 6 { assert j.handles[..6][k] == hs[k]; }
  }

  lemma CloneHandle(c: Clones, rs: seq<Record>, r: Record)
    requires c.Valid() && r in rs + c.All(rs)
    ensures exists x :: x in rs && x.handles == r.handles
  {
    if r !in rs { ClonesDifferOnlyInTarget(c, rs, r); }
  }

  lemma DroppedHandle(pipe: nat, t: Table, i: nat, h: word)
    requires Known(EditTable(DropRows(pipe), t), i, h)
    ensures Known(t, i, h)
  {
    var b := t.blocks[i];
    assert b.Relocs?;
    KeepIsFilter(pipe, b.records);
  }

  lemma MovedHandle(c: Call, i: nat, h: word)
    requires c.Moved().Some? && Known(c.MovedTable(), i, h)
    ensures Known(c.Incoming().value, i, h)
  {
    var b := c.In().(sideband := Encode(c.Cleaned()));
    RewriteMeaning.ResultParts(b, c.reps.value);
    ParseEncode(c.Cleaned());
    var m, t := PositionMap(b.commands[..b.used], c.reps.value), c.Cleaned();
    var r :| r in c.MovedTable().blocks[i].records && r.handles == h;
    assert BlockOk(m, b.used, t.blocks[i]) by { assert t.blocks[i] in t.blocks; }
    var k :| 0 <= k < |t.blocks[i].records| && r == RelocateRecord(m, t.blocks[i].records[k]);
    assert t.blocks[i].records[k] in t.blocks[i].records;
    assert Known(t, i, h);
    DroppedHandle(c.Pipe(), c.Incoming().value, i, h);
  }

  lemma ScratchHandle(c: Call, r: Record)
    requires c.Valid() && c.creation.MakesAll(c.Required()) && r.handles in c.Handles()[..c.Required()]
    ensures ScratchHas(c.Buffers(), r.handles) && r.handles < 0x1_0000
  {
    var k :| 0 <= k < c.Required() && c.Handles()[k] == r.handles;
    assert c.Buffers()[k].handle == r.handles < 0x1_0000;
  }

  /** Every relocation `prepare` hands over names what the same block of the incoming sideband named, or one
      of the scratch buffers handed over with it. */
  lemma HandlesAreKnown(c: Call, i: nat, r: Record)
    requires c.Valid() && c.Submits()
    requires i < |c.Submitted().blocks| && c.Submitted().blocks[i].Relocs? && r in c.Submitted().blocks[i].records
    ensures Known(c.Incoming().value, i, r.handles) || (ScratchHas(c.Buffers(), r.handles) && r.handles < 0x1_0000)
  {
    var j, t := c.JobFor(c.find(c.Moved().value).value), c.MovedTable();
    FinalHandles(j, t, i, r);
    FromCall(c, j, t, i, r);
  }

  lemma FromCall(c: Call, j: Job, t: Table, i: nat, r: Record)
    requires c.Valid() && c.Moved().Some? && t == c.MovedTable() && c.creation.MakesAll(c.Required())
    requires j.Valid() && j.offchip == c.offchip && j.handles == c.Handles()
    requires Known(t, i, r.handles) || r.handles in j.handles[..if j.offchip then 11 else 8]
    ensures Known(c.Incoming().value, i, r.handles) || (ScratchHas(c.Buffers(), r.handles) && r.handles < 0x1_0000)
  {
    if Known(t, i, r.handles) {
      MovedHandle(c, i, r.handles);
    } else {
      ScratchHandle(c, r);
    }
  }

  /** A relocation handed to the executor that addresses one of the six line buffers of the pipe-buffer
      packet, untiled, names the scratch buffer made for that one, which has the size the frame needs in
      whole pages. */
  lemma LineBuffersFit(c: Call, i: nat, k: nat, n: nat, all: seq<Record>)
    requires c.Valid() && c.Submits() && i < |c.MovedTable().blocks| && c.MovedTable().blocks[i].Relocs?
    requires var b := c.MovedTable().blocks[i];
             all == b.records + c.find(c.Moved().value).value.clones.All(b.records) && k < |all| && n < 6 &&
             all[k].head < 0x8000_0000 &&
             all[k].head / 32 % 0x10_0000 == c.find(c.Moved().value).value.pipe + [7, 10, 16, 19, 25, 28][n]
    ensures i < |c.Submitted().blocks| && c.Submitted().blocks[i].Relocs? && k < |c.Submitted().blocks[i].records|
    ensures c.Submitted().blocks[i].records[k].handles == c.Asked().scratch[n].handle
    ensures var (wc, hc) := ((c.width + 63) / 64, (c.height + 63) / 64);
            var size := [4096 * wc, 4608 * hc, 1024 * wc, 1024 * hc, 2560 * wc, 4608 * hc][n];
            size <= c.Asked().scratch[n].bytes < size + c.creation.page
  {
    LineBuffersOnWords(c.JobFor(c.find(c.Moved().value).value), c.MovedTable(), i, k, all);
    BufferSize(c, n);
  }

  /** The rows added to a block name the other scratch buffers handed over: the two VDEnc words the seventh
      and eighth, and, in frames wider than 2048 pixels only, the three off-chip words the last three. */
  lemma NewRowsFit(c: Call, i: nat) returns (own: seq<Record>, rows: seq<Record>, more: seq<Record>)
    requires c.Valid() && c.Submits() && i < |c.MovedTable().blocks| && c.MovedTable().blocks[i].Relocs?
    ensures i < |c.Submitted().blocks| && c.Submitted().blocks[i].Relocs?
    ensures c.Submitted().blocks[i].records == own + rows + more
    ensures var b := c.MovedTable().blocks[i];
            |own| == |b.records| + |c.find(c.Moved().value).value.clones.All(b.records)|
    ensures rows != [] ==>
              var (bs, vdenc) := (c.Asked().scratch, c.find(c.Moved().value).value.vdenc);
              |rows| == 2 && vdenc.Some? &&
              rows[0].head == (vdenc.value + 62) * 32 + 0x11 && rows[0].handles == bs[6].handle &&
              rows[1].head == (vdenc.value + 65) * 32 + 0x11 && rows[1].handles == bs[7].handle
    ensures more != [] ==>
              c.width > 2048 && |c.Asked().scratch| == 11 &&
              var (bs, pipe) := (c.Asked().scratch, c.find(c.Moved().value).value.pipe);
              |more| == 3 && more[0].head == (pipe + 4) * 32 + 0x11 && more[0].handles == bs[8].handle &&
              more[1].head == (pipe + 13) * 32 + 0x11 && more[1].handles == bs[9].handle &&
              more[2].head == (pipe + 22) * 32 + 0x11 && more[2].handles == bs[10].handle
  {
    own, rows, more := NewRowsOnWords(c.JobFor(c.find(c.Moved().value).value), c.MovedTable(), i);
    BufferSize(c, 6);
    BufferSize(c, 7);
    if more != [] {
      BufferSize(c, 8);
      BufferSize(c, 9);
      BufferSize(c, 10);
    }
  }

  /** Each scratch buffer has the size the frame needs for it, in whole pages. */
  lemma BufferSize(c: Call, n: nat)
    requires c.Valid() && n < c.Required()
    ensures c.Handles()[n] == c.Buffers()[n].handle
    ensures var (wc, hc) := ((c.width + 63) / 64, (c.height + 63) / 64);
            var size := [4096 * wc, 4608 * hc, 1024 * wc, 1024 * hc, 2560 * wc, 4608 * hc, (c.width + 31) / 32 * 128,
                         wc * hc * 4, 2048 * wc, 512 * wc, 1280 * wc][n];
            size <= c.Buffers()[n].bytes < size + c.creation.page
  {
    SizeOf(c.width, c.height, n);
    assert c.Buffers()[n] == c.Buffer(n);
  }

  lemma SizeOf(width: nat, height: nat, n: nat)
    requires n < 11
    ensures var (wc, hc) := ((width + 63) / 64, (height + 63) / 64);
            Sizes(width, height)[n] ==
            [4096 * wc, 4608 * hc, 1024 * wc, 1024 * hc, 2560 * wc, 4608 * hc, (width + 31) / 32 * 128, wc * hc * 4,
             2048 * wc, 512 * wc, 1280 * wc][n]
  {
    var (wc, hc) := ((width + 63) / 64, (height + 63) / 64);
    assert Sizes(width, height) == [4096 * wc, 4608 * hc, 1024 * wc, 1024 * hc, 2560 * wc, 4608 * hc] +
        [(width + 31) / 32 * 128, wc * hc * 4, 2048 * wc, 512 * wc, 1280 * wc];
  }

  // ---- the last checks of `prepare` ----

  /** An event token, and no other word of this kind. */
  predicate IsEvent(b: Block) { IsUsed(b) && |b.payload| == 2 }

  function Events(bs: seq<Block>): nat {
    if bs == [] then 0 else (if IsEvent(bs[0]) then 1 else 0) + Events(bs[1..])
  }

  /** Same sizes, and event tokens at the same places. */
  predicate Alike(bs: seq<Block>, bs': seq<Block>) {
    |bs| == |bs'| && forall k :: 0 <= k < |bs| ==>
      bs[k].Size() == bs'[k].Size() && (IsUsed(bs[k]) <==> IsUsed(bs'[k]))
  }

  lemma {:induction false} AlikeCounts(bs: seq<Block>, bs': seq<Block>)
    requires Alike(bs, bs') && (forall b <- bs :: b.Valid()) && (forall b <- bs' :: b.Valid())
    ensures Events(bs) == Events(bs') && |EncodeBlocks(bs)| == |EncodeBlocks(bs')|
  {
    if bs != [] {
      assert bs[0].Size() == bs'[0].Size();
      AlikeCounts(bs[1..], bs'[1..]);
    }
  }

  lemma {:induction false} AllEvents(bs: seq<Block>)
    requires forall b <- bs :: IsUsed(b) ==> |b.payload| == 2
    ensures Events(bs) == UsedTokens(bs)
  {
    if bs != [] { AllEvents(bs[1..]); }
  }

  lemma FinalAlike(j: Job, t: Table)
    requires j.Valid() && t.Valid() && j.Accepts(t)
    ensures Alike(t.blocks, Final(j, t).blocks) && Final(j, t).header == t.header && Final(j, t).Valid()
  {
    PreparedIsWalked(j, t);
    EachClonesOk(j.clones, t.blocks);
    PlanKeepsGrammar(j.ThePlan(t), t);
  }

  /** What is handed over has the sizes of what came in, and names one event; so the checks on both, which
      `prepare` makes last, never fail. */
  lemma LastChecksHold(c: Call)
    requires c.Valid() && c.Submits()
    ensures Events(c.Submitted().blocks) == 1
    ensures |c.Moved().value.commands| == |c.commands| && |c.Asked().side| == |c.sideband|
  {
    var j, t := c.JobFor(c.find(c.Moved().value).value), c.MovedTable();
    FinalAlike(j, t);
    AlikeCounts(t.blocks, c.Submitted().blocks);
    MovedAlike(c);
  }

  lemma MovedAlike(c: Call)
    requires c.Moved().Some?
    ensures Events(c.MovedTable().blocks) == 1 && |c.Moved().value.commands| == |c.commands|
    ensures |Encode(c.MovedTable())| == |c.sideband|
  {
    var b, t := c.In().(sideband := Encode(c.Cleaned())), c.Cleaned();
    RewriteMeaning.ResultParts(b, c.reps.value);
    ParseEncode(t);
    FramingIsGrammar(c.sideband);
    var m := PositionMap(b.commands[..b.used], c.reps.value);
    RelocatedAlike(m, b.used, c.Moved().value.used, t);
    AlikeCounts(t.blocks, c.MovedTable().blocks);
    AllEvents(t.blocks);
    DroppedAlike(c.Pipe(), c.Incoming().value);
    AlikeCounts(c.Incoming().value.blocks, t.blocks);
  }

  lemma RelocatedAlike(m: seq<Option<int>>, used: word, newUsed: word, t: Table)
    requires forall x <- t.blocks :: BlockOk(m, used, x)
    ensures Alike(t.blocks, RelocateTable(m, used, newUsed, t).blocks)
    ensures forall b <- t.blocks :: IsUsed(b) ==> |b.payload| == 2
  {
    forall k | 0 <= k < |t.blocks| ensures BlockOk(m, used, t.blocks[k]) { assert t.blocks[k] in t.blocks; }
  }

  lemma DroppedAlike(pipe: nat, t: Table)
    requires t.Valid()
    ensures Alike(t.blocks, EditTable(DropRows(pipe), t).blocks)
  {
    forall k | 0 <= k < |t.blocks|
      ensures t.blocks[k].Size() == DropRows(pipe)(t.blocks[k]).Size()
    {
      assert t.blocks[k] in t.blocks;
      DropRowsKeeps(pipe, t.blocks[k]);
    }
  }

  // ---- the call ----

  method Copied(words: seq<word>) returns (s: array<word>)
    ensures fresh(s) && s[..] == words
  {
    s := new word[|words|](k requires 0 <= k < |words| => words[k]);
    assert s[..] == words;
  }

  /** Up to the rewrite. */
  method Rework(c: Call) returns (out: Option<Batch>)
    ensures out == c.Moved()
  {
    if c.Incoming().None? { return None; }
    var checked := RewriteLoops.RewriteVideoBatch(c.In(), []);
    if checked.None? || c.reps.None? || c.Pipe() == 0 { return None; }
    FramingIsGrammar(c.sideband);
    var s := Copied(c.sideband);
    var kept := DropRowStores(s, c.Pipe(), c.Incoming().value);
    if !kept { return None; }
    out := RewriteLoops.RewriteVideoBatch(c.In().(sideband := s[..]), c.reps.value);
  }

  /** The buffers that were created are the ones the answers make. */
  lemma CreatedAll(c: Call, o: ScratchDesk.Owned, now: ScratchDesk.Owned, bs: seq<Scratch>)
    requires c.Valid() && ScratchDesk.Creating(c.creation, o, now, bs, c.Required())
    ensures bs[..c.Required()] == c.Buffers() && now == ScratchDesk.WithAll(o, c.Buffers())
  {
    var made := bs[..c.Required()];
    forall k | 0 <= k < c.Required() ensures made[k] == c.Buffers()[k] {
      assert ScratchDesk.IsMade(made[k], c.creation.sizes[k], c.creation.page, c.creation.answers[k]);
    }
    assert made == c.Buffers();
  }

  /** One `prepare` call. The executor is asked exactly when every step before it succeeds, with exactly this
      request; and at every exit the process owns the scratch it owned before, plus all the buffers of the
      request exactly if the executor accepted it. */
  method PrepareBatch(c: Call, desk: ScratchDesk.Desk, owner: OwnerTables.Owner, env: Env)
    returns (reply: Option<Reply>)
    requires c.Valid() && desk.buffers.Length == SCRATCH && NoneFrom(desk.buffers[..], 0)
    requires owner.Valid() && SlotsOk(owner.contexts[..]) && RangesOk(owner.resources[..]) && owner.reserved <= BUDGET
    modifies desk`owned, desk.buffers, owner`reserved, owner`native, owner.contexts, owner.deferred
    ensures reply.Some? <==> c.Submits()
    ensures reply.Some? ==> (owner.Now(), reply.value) == Begin(old(owner.Now()), c.Asked(), env)
    ensures reply.None? ==> owner.Now() == old(owner.Now())
    ensures desk.owned == ScratchDesk.WithAll(old(desk.owned), Kept(c, reply))
    ensures NoneFrom(desk.buffers[..], 0)
  {
    reply := None;
    var moved := Rework(c);
    if moved.None? { return; }
    var found := c.find(moved.value);
    if found.None? { return; }
    var s := Copied(moved.value.sideband);
    var cloned, added := CloneRelocations(s, found.value.clones, c.MovedTable());
    if !cloned || added != 5 { return; }
    reply := Bind(c, found.value, s, desk, owner, env);
  }

  lemma AskedWith(c: Call, f: Found, bs: seq<Scratch>, side: seq<word>)
    requires c.Valid() && c.Moved().Some? && c.find(c.Moved().value) == Some(f) && bs == c.Buffers()
    requires c.creation.MakesAll(c.Required()) && c.io != 0 && c.pointers
    requires c.JobFor(f).Accepts(c.MovedTable()) && Final(c.JobFor(f), c.MovedTable()).Valid()
    requires side == Encode(Final(c.JobFor(f), c.MovedTable()))
    ensures c.Submits() && c.Asked() == Request(c.creation.shared, c.io, c.pointers, bs, side, c.buffers)
  {
  }

  /** From the creation of the scratch buffers on. */
  method Bind(c: Call, f: Found, s: array<word>, desk: ScratchDesk.Desk, owner: OwnerTables.Owner, env: Env)
    returns (reply: Option<Reply>)
    requires c.Valid() && c.Moved().Some? && c.find(c.Moved().value) == Some(f) && c.GetsClones(f)
    requires EditTable(f.clones.Edit(), c.MovedTable()).Valid()
    requires s[..] == Encode(EditTable(f.clones.Edit(), c.MovedTable()))
    requires desk.buffers.Length == SCRATCH && NoneFrom(desk.buffers[..], 0)
    requires owner.Valid() && SlotsOk(owner.contexts[..]) && RangesOk(owner.resources[..]) && owner.reserved <= BUDGET
    modifies s, desk`owned, desk.buffers, owner`reserved, owner`native, owner.contexts, owner.deferred
    ensures reply.Some? <==> c.Submits()
    ensures reply.Some? ==> (owner.Now(), reply.value) == Begin(old(owner.Now()), c.Asked(), env)
    ensures reply.None? ==> owner.Now() == old(owner.Now())
    ensures desk.owned == ScratchDesk.WithAll(old(desk.owned), Kept(c, reply))
    ensures NoneFrom(desk.buffers[..], 0)
  {
    ghost var o := desk.owned;
    reply := None;
    var bs := Obtain(c, desk);
    if bs.None? { return; }
    ghost var made := desk.buffers[..];
    var accepted := BindScratch(s, c.JobFor(f), c.MovedTable());
    if accepted && c.io != 0 && c.pointers {
      AskedWith(c, f, bs.value, s[..]);
      reply := HandIn(c, s[..], bs.value, desk, owner, env, o);
    } else {
      desk.DestroyAll(|bs.value|, o);
    }
    AllCleared(desk.buffers[..], made, |bs.value|);
  }

  predicate NoneFrom(bs: seq<Scratch>, n: nat) {
    forall k :: n <= k < |bs| ==> bs[k] == ScratchDesk.NONE
  }

  lemma AllCleared(now: seq<Scratch>, all: seq<Scratch>, n: nat)
    requires ScratchDesk.Cleared(now, all, n) && NoneFrom(all, n)
    ensures NoneFrom(now, 0)
  {
  }

  /** All the buffers the call needs, or none. */
  method Obtain(c: Call, desk: ScratchDesk.Desk) returns (bs: Option<seq<Scratch>>)
    requires c.Valid() && desk.buffers.Length == SCRATCH && NoneFrom(desk.buffers[..], 0)
    modifies desk`owned, desk.buffers
    ensures bs.Some? <==> c.creation.MakesAll(c.Required())
    ensures bs.Some? ==>
              bs.value == c.Buffers() == desk.buffers[..][..c.Required()] &&
              desk.owned == ScratchDesk.WithAll(old(desk.owned), bs.value) && NoneFrom(desk.buffers[..], c.Required())
    ensures bs.None? ==> desk.owned == old(desk.owned) && NoneFrom(desk.buffers[..], 0)
  {
    ghost var o := desk.owned;
    var created := desk.CreateAll(c.creation, c.Required());
    ghost var made, now := desk.buffers[..], desk.owned;
    if created == c.Required() {
      CreatedAll(c, o, now, made);
      return Some(desk.buffers[..][..created]);
    }
    desk.DestroyAll(created, o);
    ScratchDesk.FullyCleared(made, desk.buffers[..], c.creation, o, now, created);
    bs := None;
  }

  /** Submit these buffers with the final sideband, and destroy the ones the executor did not take over. */
  method HandIn(c: Call, side: seq<word>, bs: seq<Scratch>, desk: ScratchDesk.Desk, owner: OwnerTables.Owner,
                env: Env, ghost o: ScratchDesk.Owned)
    returns (reply: Option<Reply>)
    requires |bs| <= desk.buffers.Length == SCRATCH && desk.buffers[..][..|bs|] == bs
    requires desk.owned == ScratchDesk.WithAll(o, bs)
    requires owner.Valid() && SlotsOk(owner.contexts[..]) && RangesOk(owner.resources[..]) && owner.reserved <= BUDGET
    modifies desk`owned, desk.buffers, owner`reserved, owner`native, owner.contexts, owner.deferred
    ensures reply.Some? && desk.owned == ScratchDesk.WithAll(o, Adopted(bs, reply.value))
    ensures (owner.Now(), reply.value)
            == Begin(old(owner.Now()), Request(c.creation.shared, c.io, c.pointers, bs, side, c.buffers), env)
    ensures ScratchDesk.Cleared(desk.buffers[..], old(desk.buffers[..]), |bs|)
  {
    var r := owner.Execute(Request(c.creation.shared, c.io, c.pointers, bs, side, c.buffers), env);
    ghost var all := desk.buffers[..];
    if r.Accepted? { var adopted := desk.Adopt(|bs|, o); }
    desk.DestroyAll(|bs|, ScratchDesk.WithAll(o, Adopted(bs, r)));
    reply := Some(r);
  }

  lemma AcceptedScratch(w: World, q: Request, env: Env)
    requires Inv(w) && Begin(w.st, q, env).1.Accepted?
    ensures Begin(w.st, q, env).0.native.scratch == w.st.native.scratch
  {
    var i := SlotFor(w.st.contexts, q.io);
    var st1 := Occupy(w.st, i, q.io);
    var l := Preflight(st1, i, q, env);
    OwnershipKeeps.BeginIs(w, q, env, i, st1, l);
    PreflightBuilds(st1, i, q, env, l);
  }

  /** What the executor takes over here is what the machine of all threads takes from its callers. */
  lemma HandOver(w: World, tid: nat, q: Request, env: Env)
    requires Inv(w) && Enabled(w, Execute(tid, q, env))
    ensures var w', adopted := Next(w, Execute(tid, q, env)), Adopted(q.scratch, Begin(w.st, q, env).1);
            w'.loose + multiset(adopted) == w.loose && w'.st.native.scratch == w.st.native.scratch &&
            (Begin(w.st, q, env).1.Accepted? ==> tid in w'.threads && w'.threads[tid].scratch == adopted)
  {
    if Begin(w.st, q, env).1.Accepted? {
      AcceptedIsCovered(w.st, q, env);
      AcceptedScratch(w, q, env);
      var p := OwnershipBatches.AcceptedThread(w, tid, q, env);
    } else {
      OwnershipBatches.RefusedFrom(w, q, env);
    }
  }
}
