/** A whole call of `prepare` that hands a batch to the executor without the VDEnc rows: a line buffer is
    bound eight times over, so the count of bindings comes out as if two of them were the rows. */
module SubmissionWitness {
  import opened Words
  import opened Sideband
  import opened Prepare
  import opened PrepareLoops
  import opened PrepareRun
  import opened Rewrite
  import opened Submission

  import PacketStream

  // ---- records ----

  function Many(n: nat, r: Record): (rs: seq<Record>)
    ensures |rs| == n && forall i :: 0 <= i < n ==> rs[i] == r
  {
    if n == 0 then [] else [r] + Many(n - 1, r)
  }

  lemma {:induction false} CountAppend(b: Rebind, x: seq<Record>, y: seq<Record>)
    ensures BoundCount(b, x + y) == BoundCount(b, x) + BoundCount(b, y)
  {
    if x == [] {
      assert x + y == y;
    } else {
      assert (x + y)[0] == x[0] && (x + y)[1..] == x[1..] + y;
      CountAppend(b, x[1..], y);
    }
  }

  lemma {:induction false} CountMany(b: Rebind, n: nat, r: Record)
    ensures BoundCount(b, Many(n, r)) == if b.Bound(r) then n else 0
  {
    if n > 0 {
      assert Many(n, r)[1..] == Many(n - 1, r);
      CountMany(b, n - 1, r);
    }
  }

  lemma {:induction false} ClonesAppend(c: Clones, x: seq<Record>, y: seq<Record>)
    requires c.Valid()
    ensures c.All(x + y) == c.All(x) + c.All(y)
  {
    if x == [] {
      assert x + y == y;
    } else {
      assert (x + y)[0] == x[0] && (x + y)[1..] == x[1..] + y;
      ClonesAppend(c, x[1..], y);
    }
  }

  /** A record cloned once, or not at all. */
  lemma {:induction false} ClonesMany(c: Clones, n: nat, r: Record, clone: Record)
    requires c.Valid() && (c.Of(r) == [] || c.Of(r) == [clone])
    ensures c.All(Many(n, r)) == if c.Of(r) == [] then [] else Many(n, clone)
  {
    if n > 0 {
      assert Many(n, r)[0] == r && Many(n, r)[1..] == Many(n - 1, r);
      ClonesMany(c, n - 1, r, clone);
    }
  }

  // ---- the passes on the rewritten table ----

  const CLONES := Clones({131}, 0, 0)
  const CHROMA := Record(0x8000_0000 + 131 * 32 + 0x15, 0x14_0014, 0, 0, 0)
  const CLONE := Record(0x8000_0000 + 132 * 32 + 0x15, 0x14_0014, 0, 0, 0)
  const LINE := Record(13 * 32 + 0x11, 0x15, 0, 0, 0)

  function Records(chroma: Record, line: Record): seq<Record> { Many(5, chroma) + Many(8, line) }

  /** Five chroma records and eight of one line buffer, and the event token. */
  function TableOf(chroma: Record, line: Record, used: word): Table {
    Table([0, 0, 0, 0], [Relocs(0, 0, Records(chroma, line), 30), Plain(USED, [used, 7])], 205)
  }

  function TheJob(handles: seq<word>): Job { Job(CLONES, 6, Some(133), false, handles) }

  lemma Kinds(handles: seq<word>)
    requires |handles| == 11
    ensures CLONES.Valid() && CLONES.Of(CHROMA) == [CLONE] && CLONES.Of(LINE) == [] && CLONES.Of(CLONE) == []
    ensures var b := TheJob(handles).Line(); b.Bound(LINE) && !b.Bound(CHROMA) && !b.Bound(CLONE)
    ensures CHROMA.head >= 0x8000_0000 && CHROMA.head % 32 == 0x15 && !CLONES.IsChroma(LINE)
    ensures CHROMA.Valid() && LINE.Valid() && CLONE.Valid()
    ensures Target(CHROMA.head) == 131 && Target(CLONE.head) == 132 && Target(LINE.head) == 13
  {
    assert Target(CHROMA.head) == 131 && Target(CLONE.head) == 132 && Target(LINE.head) == 13;
    assert Retarget(CHROMA.head, 132) == CLONE.head;
  }

  lemma TheClones(handles: seq<word>)
    requires |handles| == 11
    ensures CLONES.Valid() && CLONES.All(Records(CHROMA, LINE)) == Many(5, CLONE)
    ensures CLONES.Ok(Records(CHROMA, LINE))
  {
    Kinds(handles);
    AllOk(CLONES, CHROMA, LINE);
    ClonesMany(CLONES, 5, CHROMA, CLONE);
    ClonesMany(CLONES, 8, LINE, LINE);
    ClonesAppend(CLONES, Many(5, CHROMA), Many(8, LINE));
    assert Many(5, CLONE) + [] == Many(5, CLONE);
  }

  lemma TheBound(handles: seq<word>)
    requires |handles| == 11
    ensures BoundCount(TheJob(handles).Line(), Records(CHROMA, LINE) + Many(5, CLONE)) == 8
  {
    var b := TheJob(handles).Line();
    Kinds(handles);
    CountMany(b, 5, CHROMA);
    CountMany(b, 8, LINE);
    CountMany(b, 5, CLONE);
    CountAppend(b, Many(5, CHROMA), Many(8, LINE));
    CountAppend(b, Records(CHROMA, LINE), Many(5, CLONE));
  }

  lemma TwoBlocks(c: Clones, r: Rebind, b: Block, x: Block)
    requires c.Valid() && b.Relocs? && x.Plain?
    ensures ClonesIn(c, [b, x]) == |c.All(b.records)| && BoundIn(r, [b, x]) == BoundCount(r, b.records)
    ensures ClonesOkIn(c, [b, x]) <==> c.Ok(b.records) && 5 * |c.All(b.records)| < b.slack
  {
    assert [b, x][1..] == [x];
    PlainBlock(c, r, x);
  }

  lemma PlainBlock(c: Clones, r: Rebind, x: Block)
    requires c.Valid() && x.Plain?
    ensures ClonesIn(c, [x]) == 0 && BoundIn(r, [x]) == 0 && ClonesOkIn(c, [x])
  {
    assert [x][1..] == [];
    assert ClonesIn(c, []) == 0 && BoundIn(r, []) == 0 && ClonesOkIn(c, []);
  }

  lemma Cloned(t: Table)
    requires CLONES.Valid() && t == TableOf(CHROMA, LINE, 205) && CLONES.All(Records(CHROMA, LINE)) == Many(5, CLONE)
    ensures EditTable(CLONES.Edit(), t).blocks
            == [Relocs(0, 0, Records(CHROMA, LINE) + Many(5, CLONE), 5), Plain(USED, [205, 7])]
  {
    assert CLONES.Edit()(t.blocks[0]) == Relocs(0, 0, Records(CHROMA, LINE) + Many(5, CLONE), 5);
    assert CLONES.Edit()(t.blocks[1]) == t.blocks[1];
  }

  lemma AllOk(c: Clones, chroma: Record, line: Record)
    requires chroma.head >= 0x8000_0000 && chroma.head % 32 == 0x15 && !c.IsChroma(line)
    ensures c.Ok(Records(chroma, line))
  {
  }

  lemma TheLines(handles: seq<word>)
    requires |handles| == 11
    ensures TheJob(handles).Valid() && TheJob(handles).Lines(TableOf(CHROMA, LINE, 205)) == 8
    ensures ClonesOkIn(CLONES, TableOf(CHROMA, LINE, 205).blocks)
    ensures ClonesIn(CLONES, TableOf(CHROMA, LINE, 205).blocks) == 5
  {
    var j, t := TheJob(handles), TableOf(CHROMA, LINE, 205);
    TheClones(handles);
    TheBound(handles);
    Cloned(t);
    TwoBlocks(CLONES, j.Line(), t.blocks[0], t.blocks[1]);
    TwoBlocks(CLONES, j.Line(), EditTable(CLONES.Edit(), t).blocks[0], t.blocks[1]);
  }

  /** The job accepts the table, and binds no VDEnc rows. */
  lemma TheAccepts(handles: seq<word>)
    requires |handles| == 11
    ensures TheJob(handles).Valid() && TheJob(handles).Accepts(TableOf(CHROMA, LINE, 205))
    ensures TheJob(handles).Lines(TableOf(CHROMA, LINE, 205)) == 8
  {
    TheLines(handles);
  }

  lemma NothingAdded(rs: seq<Record>)
    ensures rs + [] + [] == rs
  {
  }

  lemma TheRecords(handles: seq<word>) returns (bs: seq<Block>)
    requires |handles| == 11 && TheJob(handles).Valid()
    ensures bs == Final(TheJob(handles), TableOf(CHROMA, LINE, 205)).blocks
    ensures |bs| == 2 && bs[0].Relocs? && !bs[1].Relocs?
    ensures bs[0].records == TheJob(handles).Line().All(Records(CHROMA, LINE) + Many(5, CLONE))
  {
    var j, t := TheJob(handles), TableOf(CHROMA, LINE, 205);
    TheLines(handles);
    TheClones(handles);
    bs := Final(j, t).blocks;
    FinalRecords(j, t, 0);
    assert VdencIn(j, t, 0) == [] && OffchipIn(j, t, 0) == [];
    NothingAdded(j.Line().All(Records(CHROMA, LINE) + Many(5, CLONE)));
  }

  /** A record of what is handed on addresses a chroma or surface word, or a line buffer. */
  lemma TheTargets(handles: seq<word>, i: nat, r: Record)
    requires |handles| == 11 && TheJob(handles).Valid()
    requires var bs := Final(TheJob(handles), TableOf(CHROMA, LINE, 205)).blocks;
             i < |bs| && bs[i].Relocs? && r in bs[i].records
    ensures Target(r.head) in {131, 132, 13}
  {
    var bs := TheRecords(handles);
    SameTarget(TheJob(handles).Line(), Records(CHROMA, LINE) + Many(5, CLONE), r);
    OneOfThem(r);
  }

  lemma SameTarget(b: Rebind, rs: seq<Record>, r: Record)
    requires b.Valid() && r in b.All(rs) && rs == Records(CHROMA, LINE) + Many(5, CLONE)
    ensures r.head in {CHROMA.head, LINE.head, CLONE.head}
  {
    var k :| 0 <= k < |rs| && b.All(rs)[k] == r;
    assert rs[k] == CHROMA || rs[k] == LINE || rs[k] == CLONE;
  }

  lemma OneOfThem(r: Record)
    requires r.head in {CHROMA.head, LINE.head, CLONE.head}
    ensures Target(r.head) in {131, 132, 13}
  {
    Kinds([0, 0, 0, 0, 0, 0, 0, 0, 0, 0, 0]);
  }

  // ---- the commands ----

  const CHROMA_HEADER: word := 0x7082_0004
  const VDENC_HEADER: word := 0x7084_0045

  /** A packet: its header, and n zero words. */
  function Packet(header: word, n: nat): seq<word> { [header] + Zeros(n) }

  function Ending(): seq<word> { Packet(VDENC_HEADER, 70) + [BATCH_END] }

  function FromChroma(): seq<word> { Packet(CHROMA_HEADER, 5) + Ending() }

  function FromPipe(): seq<word> { Packet(PIPE_BUFFERS, 120) + FromChroma() }

  /** A no-op, the pipe buffers, a chroma packet, the VDEnc buffers, the batch end. */
  function Commands(): (c: seq<word>)
    ensures |c| == 200
  {
    [0] + FromPipe()
  }

  /** The converter's packets: here the old ones, the pipe buffers with the reference surface before them
      and the first line buffer's address at the same place. */
  const PIPE_PACKET := Replacement(1, 121, Packet(PIPE_BUFFERS, 120), [(7, 7)], REFERENCE_SURFACE)
  const VDENC_PACKET := Replacement(128, 71, Packet(VDENC_HEADER, 70), [], [])
  const REPS := [PIPE_PACKET, VDENC_PACKET]

  lemma WalkPacket(header: word, n: nat, tail: seq<word>)
    requires AuditedLength(header) == n + 1 && !(Type(header) == 0 && Opcode(header) == 10) && WalkOk(tail)
    ensures WalkOk(Packet(header, n) + tail)
  {
    var s := Packet(header, n) + tail;
    assert s[0] == header && s[n + 1..] == tail;
  }

  lemma StartPacket(header: word, n: nat, tail: seq<word>, d: nat)
    requires AuditedLength(header) == n + 1 && IsStart(tail, d)
    ensures IsStart(Packet(header, n) + tail, n + 1 + d)
  {
    var s := Packet(header, n) + tail;
    assert s[0] == header && s[n + 1..] == tail;
  }

  lemma WalkCommands()
    ensures WalkOk(Commands()) && IsStart(Commands(), 1) && IsStart(Commands(), 128)
  {
    WalkEnd();
    WalkPacket(VDENC_HEADER, 70, [BATCH_END]);
    WalkPacket(CHROMA_HEADER, 5, Ending());
    WalkPacket(PIPE_BUFFERS, 120, FromChroma());
    WalkPacket(0, 0, FromPipe());
    assert Commands() == Packet(0, 0) + FromPipe();
    StartsHere();
  }

  lemma WalkEnd()
    ensures WalkOk([BATCH_END])
  {
    assert [BATCH_END][1..] == [];
  }

  lemma StartsHere()
    ensures IsStart(Commands(), 1) && IsStart(Commands(), 128)
  {
    assert Commands() == Packet(0, 0) + FromPipe();
    StartPacket(CHROMA_HEADER, 5, Ending(), 0);
    StartPacket(PIPE_BUFFERS, 120, FromChroma(), 6);
    StartPacket(0, 0, FromPipe(), 0);
    StartPacket(0, 0, FromPipe(), 127);
  }

  lemma WordsAt()
    ensures var c := Commands();
            c[1] == PIPE_BUFFERS && c[122] == CHROMA_HEADER && c[128] == VDENC_HEADER && c[199] == BATCH_END &&
            c[..1] == [0] && c[122..] == FromChroma() && c[122..][..6] == Packet(CHROMA_HEADER, 5) &&
            c[122..][77..] == [BATCH_END]
  {
    var c := Commands();
    assert c[1..] == FromPipe() && FromPipe()[121..] == FromChroma();
    assert c[122..] == FromChroma();
    assert FromChroma()[..6] == Packet(CHROMA_HEADER, 5) && FromChroma()[6..] == Ending();
    assert Ending()[71..] == [BATCH_END];
    assert FromChroma()[77..] == [BATCH_END];
  }

  lemma TheReplacements()
    ensures ReplacementsOk(Commands(), REPS) && ReplacementsOk(Commands(), [])
  {
    WalkCommands();
    WordsAt();
    PacketsOk(Commands());
    BothOk(Commands(), PIPE_PACKET, VDENC_PACKET);
  }

  lemma BothOk(c: seq<word>, a: Replacement, b: Replacement)
    requires ReplacementOk(c, a) && ReplacementOk(c, b) && a.at < End(a) <= b.at < End(b) <= |c|
    ensures ReplacementsOk(c, [a, b]) && ReplacementsOk(c, [])
  {
    assert [a, b][1..] == [b] && [b][1..] == [];
    assert Ordered(|c|, [b], End(a));
  }

  lemma PacketsOk(c: seq<word>)
    requires |c| == 200 && IsStart(c, 1) && IsStart(c, 128) && c[1] == PIPE_BUFFERS && c[128] == VDENC_HEADER
    ensures ReplacementOk(c, PIPE_PACKET) && ReplacementOk(c, VDENC_PACKET)
  {
    assert PIPE_PACKET.words[0] == PIPE_BUFFERS && VDENC_PACKET.words[0] == VDENC_HEADER;
    assert AddressesOk(PIPE_PACKET) && AddressesOk(VDENC_PACKET);
  }

  /** The rewritten words. */
  function Rewritten(): (c: seq<word>)
    ensures |c| == 205
  {
    [0] + (REFERENCE_SURFACE + (Packet(PIPE_BUFFERS, 120) + FromChroma()))
  }

  /** Two packets are replaced; the words before, between and behind them are copied. */
  lemma BodyOfTwo(lead: seq<word>, one: seq<word>, mid: seq<word>, two: seq<word>, end: seq<word>,
                  a: Replacement, b: Replacement)
    requires a.at == |lead| && a.size == |one| > 0 && b.at == |lead| + |one| + |mid| && b.size == |two| > 0
    ensures var c := lead + (one + (mid + (two + end)));
            Ordered(|c|, [a, b], 0) &&
            Body(c, [a, b], 0) == lead + (a.before + (a.words + (mid + (b.before + (b.words + end)))))
  {
    var c, rest := lead + (one + (mid + (two + end))), mid + (two + end);
    assert [a, b][1..] == [b] && [b][1..] == [];
    assert c[End(a)..] == rest && c[..a.at] == lead;
    assert rest[..b.at - End(a)] == mid && rest[End(b) - End(a)..] == end;
    assert Ordered(|c|, [b], End(a)) && Ordered(|c|, [a, b], 0);
    assert Body(end, [], End(b)) == end;
    PacketStream.BodyUnfolds(rest, [b], End(a), |mid|, |mid| + |two|);
    PacketStream.BodyUnfolds(c, [a, b], 0, |lead|, |lead| + |one|);
  }

  lemma TheBody()
    ensures Ordered(200, REPS, 0) && Body(Commands(), REPS, 0) == Rewritten() && Body(Commands(), [], 0) == Commands()
  {
    BodyOfTwo([0], Packet(PIPE_BUFFERS, 120), Packet(CHROMA_HEADER, 5), Packet(VDENC_HEADER, 70), [BATCH_END],
              PIPE_PACKET, VDENC_PACKET);
    assert [] + Ending() == Ending();
  }

  lemma TheMap()
    ensures NewAt(REPS, 0, 0, 8) == Some(13) && NewAt(REPS, 0, 0, 126) == Some(131)
    ensures NewAt([], 0, 0, 8) == Some(8) && NewAt([], 0, 0, 126) == Some(126)
  {
    assert REPS[1..] == [VDENC_PACKET];
    assert NewAt([VDENC_PACKET], 122, 127, 126) == Some(131);
  }

  // ---- the call ----

  const OLD_CHROMA := Record(0x8000_0000 + 126 * 32 + 0x15, 0x14_0014, 0, 0, 0)
  const OLD_LINE := Record(8 * 32 + 0x11, 0x15, 0, 0, 0)

  lemma RecordsMove(m: seq<Option<int>>, c0: Record, l0: Record, c1: Record, l1: Record)
    requires TargetOk(m, c0) && RelocateRecord(m, c0) == c1 && TargetOk(m, l0) && RelocateRecord(m, l0) == l1
    ensures forall r <- Records(c0, l0) :: TargetOk(m, r)
    ensures RelocateRecords(m, Records(c0, l0)) == Records(c1, l1)
  {
    var rs := Records(c0, l0);
    assert forall i :: 0 <= i < |rs| ==> rs[i] == if i < 5 then c0 else l0;
  }

  lemma TableMoves(m: seq<Option<int>>, used: word, newUsed: word, c0: Record, l0: Record, c1: Record, l1: Record)
    requires TargetOk(m, c0) && RelocateRecord(m, c0) == c1 && TargetOk(m, l0) && RelocateRecord(m, l0) == l1
    ensures TableOk(m, used, 205, TableOf(c0, l0, used))
    ensures RelocateTable(m, used, newUsed, TableOf(c0, l0, used)) == TableOf(c1, l1, newUsed)
  {
    RecordsMove(m, c0, l0, c1, l1);
    var b, x := Relocs(0, 0, Records(c0, l0), 30), Plain(USED, [used, 7]);
    assert BlockOk(m, used, b) && BlockOk(m, used, x);
    MovesTwo(m, used, newUsed, b, x);
    assert RelocateBlock(m, used, newUsed, b) == Relocs(0, 0, Records(c1, l1), 30);
    assert [used, 7][0 := newUsed] == [newUsed, 7];
  }

  lemma MovesTwo(m: seq<Option<int>>, used: word, newUsed: word, b: Block, x: Block)
    requires BlockOk(m, used, b) && BlockOk(m, used, x) && !IsUsed(b) && IsUsed(x)
    ensures UsedTokens([b, x]) == 1 && forall y <- [b, x] :: BlockOk(m, used, y)
    ensures RelocateBlocks(m, used, newUsed, [b, x])
            == [RelocateBlock(m, used, newUsed, b), RelocateBlock(m, used, newUsed, x)]
  {
    assert [b, x][1..] == [x] && [x][1..] == [] && UsedTokens([x]) == 1;
  }

  lemma OldRecords()
    ensures OLD_CHROMA.Valid() && OLD_LINE.Valid() && Target(OLD_CHROMA.head) == 126 && Target(OLD_LINE.head) == 8
    ensures Retarget(OLD_CHROMA.head, 131) == CHROMA.head && Retarget(OLD_LINE.head, 13) == LINE.head
    ensures Retarget(OLD_CHROMA.head, 126) == OLD_CHROMA.head && Retarget(OLD_LINE.head, 8) == OLD_LINE.head
  {
  }

  function Side(): (s: seq<word>)
    ensures Parse(s) == Some(TableOf(OLD_CHROMA, OLD_LINE, 200)) && |s| == 107
  {
    OldTable();
    ParseEncode(TableOf(OLD_CHROMA, OLD_LINE, 200));
    Encode(TableOf(OLD_CHROMA, OLD_LINE, 200))
  }

  lemma OldTable()
    ensures var t := TableOf(OLD_CHROMA, OLD_LINE, 200); t.Valid() && |EncodeBlocks(t.blocks)| == 101
  {
    var t := TableOf(OLD_CHROMA, OLD_LINE, 200);
    OldRecords();
    RecordsValid(OLD_CHROMA, OLD_LINE);
    BothValid(t.blocks[0], t.blocks[1]);
    SideSize(t.blocks);
  }

  lemma BothValid(b: Block, x: Block)
    requires b.Relocs? && b.slack == 30 && |b.records| == 13 && (forall r <- b.records :: r.Valid())
    requires x == Plain(USED, [200, 7])
    ensures b.Valid() && x.Valid() && b.Size() + x.Size() == 101
  {
  }

  lemma RecordsValid(chroma: Record, line: Record)
    requires chroma.Valid() && line.Valid()
    ensures forall r <- Records(chroma, line) :: r.Valid()
  {
    var rs := Records(chroma, line);
    assert forall i :: 0 <= i < |rs| ==> rs[i] == if i < 5 then chroma else line;
  }

  lemma SideSize(bs: seq<Block>)
    requires |bs| == 2 && bs[0].Valid() && bs[1].Valid()
    ensures |EncodeBlocks(bs)| == bs[0].Size() + bs[1].Size()
  {
    assert bs[1..] == [bs[1]] && bs[1..][1..] == [];
    assert EncodeBlocks([bs[1]]) == EncodeBlock(bs[1]) + [];
  }

  /** What a scan finds where these packets are: one chroma offset, one pipe-buffer packet, one VDEnc packet. */
  function Scan(b: Batch): Option<Found> {
    if |b.commands| == 205 && b.commands[6] == PIPE_BUFFERS && b.commands[127] == CHROMA_HEADER &&
       b.commands[133] == VDENC_HEADER then Some(Found(CLONES, 6, Some(133)))
    else None
  }

  /** Every creation succeeds. */
  function Creation(): ScratchDesk.Plan {
    ScratchDesk.Plan(1, Sizes(64, 64), 4096, seq(11, _ => true), seq(11, k requires 0 <= k < 11 => AnswerTo(k)))
  }

  function AnswerTo(k: nat): ScratchDesk.Answer
    requires k < 11
  {
    var bytes := if k == 1 || k == 5 then 8192 else 4096;
    ScratchDesk.Answer(8192 * (k + 1), k + 1, Some((k + 1, bytes)), bytes)
  }

  function TheCall(): Call {
    Call(Commands() + Zeros(5), Side(), Some(REPS), Scan, 64, 64, Creation(), 1, true, [])
  }

  /** The incoming batch is accepted as it is. */
  lemma Checked()
    ensures var c := TheCall();
            c.Incoming() == Some(TableOf(OLD_CHROMA, OLD_LINE, 200)) &&
            c.In() == Batch(Commands() + Zeros(5), Side(), 200) && Accepts(c.In(), [])
  {
    TheUse(TableOf(OLD_CHROMA, OLD_LINE, 200).blocks);
    BatchAccepted(Batch(Commands() + Zeros(5), Side(), 200));
  }

  lemma TheUse(bs: seq<Block>)
    requires |bs| == 2 && bs[0].Relocs? && bs[1] == Plain(USED, [200, 7])
    ensures NamedUse(bs, 0) == 200
  {
    assert bs[1..] == [bs[1]] && [bs[1]][1..] == [];
    assert NamedUse([bs[1]], 0) == 200;
  }

  lemma BatchAccepted(b: Batch)
    requires b == Batch(Commands() + Zeros(5), Side(), 200)
    ensures Accepts(b, [])
  {
    CommandsAccepted();
    OldRecords();
    TheMap();
    TheReplacements();
    TheBody();
    TableMoves(PositionMap(Commands(), []), 200, 200, OLD_CHROMA, OLD_LINE, OLD_CHROMA, OLD_LINE);
  }

  lemma CommandsAccepted()
    ensures CommandsOk(Batch(Commands() + Zeros(5), Side(), 200)) && (Commands() + Zeros(5))[..200] == Commands()
  {
    WalkCommands();
    WordsAt();
    assert (Commands() + Zeros(5))[200..] == Zeros(5);
  }

  lemma {:induction false} NoRows(pipe: nat, rs: seq<Record>)
    requires forall r <- rs :: !IsRow(pipe, r)
    ensures Keep(pipe, rs) == rs && RowsOk(pipe, rs)
  {
    if rs != [] { NoRows(pipe, rs[1..]); }
  }

  lemma NoRowsIn(pipe: nat, b: Block, x: Block)
    requires b.Relocs? && x.Plain? && Keep(pipe, b.records) == b.records && RowsOk(pipe, b.records)
    ensures EditBlocks(DropRows(pipe), [b, x]) == [b, x] && RowsOkIn(pipe, [b, x])
  {
    assert [b, x][1..] == [x] && [x][1..] == [] && RowsOkIn(pipe, [x]);
    assert DropRows(pipe)(b) == b;
  }

  lemma RecordsStay(rs: seq<Record>)
    requires rs == Records(OLD_CHROMA, OLD_LINE)
    ensures Keep(1, rs) == rs && RowsOk(1, rs)
  {
    OldRecords();
    assert forall i :: 0 <= i < |rs| ==> rs[i] == if i < 5 then OLD_CHROMA else OLD_LINE;
    forall r | r in rs ensures !IsRow(1, r) {}
    NoRows(1, rs);
  }

  lemma NoneCleaned(c: Call)
    requires c.Incoming() == Some(TableOf(OLD_CHROMA, OLD_LINE, 200)) && c.sideband == Side()
    requires c.reps.Some? && c.Pipe() == 1
    ensures Encode(c.Cleaned()) == Side() && RowsOkIn(1, c.Incoming().value.blocks)
  {
    var t := TableOf(OLD_CHROMA, OLD_LINE, 200);
    RecordsStay(Records(OLD_CHROMA, OLD_LINE));
    NoRowsIn(1, t.blocks[0], t.blocks[1]);
    assert EditTable(DropRows(1), t) == t;
    FramingIsGrammar(Side());
  }

  lemma ThePipe()
    ensures OldPipe(Commands() + Zeros(5), REPS, 0) == 1
  {
    WordsAt();
    var c := Commands() + Zeros(5);
    assert c[1] == PIPE_BUFFERS && c[128] == VDENC_HEADER;
    assert REPS[1..] == [VDENC_PACKET] && [VDENC_PACKET][1..] == [];
    assert OldPipe(c, [VDENC_PACKET], 1) == 1;
  }

  lemma MovedIs(c: Call, b: Batch)
    requires c.Incoming().Some? && Accepts(c.In(), []) && c.reps.Some? && c.Pipe() != 0
    requires RowsOkIn(c.Pipe(), c.Incoming().value.blocks) && b == c.In().(sideband := Encode(c.Cleaned()))
    ensures c.Moved() == Result(b, c.reps.value)
  {
  }

  /** And rewritten to the table above. */
  lemma TheMoved()
    ensures var c := TheCall();
            c.Moved().Some? && c.Moved().value.commands == Rewritten() &&
            c.MovedTable() == TableOf(CHROMA, LINE, 205)
  {
    var c, b := TheCall(), Batch(Commands() + Zeros(5), Side(), 200);
    Checked();
    ThePipe();
    NoneCleaned(c);
    MovedIs(c, b);
    MovedBatch(b);
  }

  lemma MovedBatch(b: Batch)
    requires b == Batch(Commands() + Zeros(5), Side(), 200)
    ensures Accepts(b, REPS) && Result(b, REPS).value.commands == Rewritten()
    ensures Parse(Result(b, REPS).value.sideband) == Some(TableOf(CHROMA, LINE, 205))
  {
    CommandsAccepted();
    OldRecords();
    TheMap();
    TheReplacements();
    TheBody();
    TableMoves(PositionMap(Commands(), REPS), 200, 205, OLD_CHROMA, OLD_LINE, CHROMA, LINE);
    RewriteMeaning.ResultParts(b, REPS);
    assert Rewritten() + Zeros(0) == Rewritten();
  }

  lemma TheCreation()
    ensures Creation().Valid() && Creation().MakesAll(8)
  {
    forall k | 0 <= k < 8
      ensures ScratchDesk.Made(1, Creation().sizes[k], 4096, Creation().mapped[k], Creation().answers[k])
    {
      OneMade(k);
    }
  }

  lemma OneMade(k: nat)
    requires k < 8
    ensures ScratchDesk.Made(1, Sizes(64, 64)[k], 4096, true, AnswerTo(k))
  {
    SmallSizes();
    ScratchDesk.MadeOnNumbers(1, Sizes(64, 64)[k], 4096, true, AnswerTo(k), if k == 1 || k == 5 then 2 else 1);
  }

  lemma SmallSizes()
    ensures Sizes(64, 64) == [4096, 4608, 1024, 1024, 2560, 4608, 256, 4, 2048, 512, 1280]
  {
  }

  lemma TheScan(b: Batch)
    requires b.commands == Rewritten()
    ensures Scan(b) == Some(Found(CLONES, 6, Some(133))) && b.commands[133] == VDENC_HEADER
  {
    var c := b.commands;
    WordsAt();
    assert c[6..] == Packet(PIPE_BUFFERS, 120) + FromChroma();
    assert c[127..] == FromChroma() && FromChroma()[6..] == Ending();
    assert c[6] == c[6..][0] && c[127] == c[127..][0] && c[133] == c[127..][6..][0];
  }

  lemma Hands(c: Call, f: Found, t: Table)
    requires c.Valid() && c.Moved().Some? && c.find(c.Moved().value) == Some(f) && t == c.MovedTable()
    requires c.creation.MakesAll(c.Required()) && c.JobFor(f).Accepts(t) && c.io != 0 && c.pointers
    ensures c.Submits() && c.Submitted() == Final(c.JobFor(f), t)
  {
  }

  /** None of these records is for the two words the VDEnc rows are for. */
  predicate Without(bs: seq<Block>, vdenc: nat) {
    forall i, r :: 0 <= i < |bs| && bs[i].Relocs? && r in bs[i].records ==>
      Target(r.head) != vdenc + 62 && Target(r.head) != vdenc + 65
  }

  lemma NoneThere(handles: seq<word>)
    requires |handles| == 11
    ensures TheJob(handles).Valid() && Without(Final(TheJob(handles), TableOf(CHROMA, LINE, 205)).blocks, 133)
  {
    var bs := Final(TheJob(handles), TableOf(CHROMA, LINE, 205)).blocks;
    forall i, r | 0 <= i < |bs| && bs[i].Relocs? && r in bs[i].records
      ensures Target(r.head) != 133 + 62 && Target(r.head) != 133 + 65
    {
      TheTargets(handles, i, r);
    }
  }

  lemma HandsOn(c: Call)
    requires c.Valid() && c.Moved().Some? && c.MovedTable() == TableOf(CHROMA, LINE, 205)
    requires c.find(c.Moved().value) == Some(Found(CLONES, 6, Some(133))) && !c.offchip
    requires c.creation.MakesAll(8) && c.io != 0 && c.pointers
    ensures c.Submits() && c.JobFor(Found(CLONES, 6, Some(133))).Lines(c.MovedTable()) == 8
    ensures Without(c.Submitted().blocks, 133)
  {
    var f := Found(CLONES, 6, Some(133));
    assert c.JobFor(f) == TheJob(c.Handles());
    TheAccepts(c.Handles());
    Hands(c, f, TableOf(CHROMA, LINE, 205));
    NoneThere(c.Handles());
  }

  lemma Received() returns (c: Call)
    ensures c == TheCall() && c.Valid() && c.Moved().Some? && c.MovedTable() == TableOf(CHROMA, LINE, 205)
    ensures c.find(c.Moved().value) == Some(Found(CLONES, 6, Some(133))) && !c.offchip
    ensures c.creation.MakesAll(8) && c.io != 0 && c.pointers && c.Moved().value.commands == Rewritten()
  {
    c := TheCall();
    TheMoved();
    TheRest(c);
    TheFind(c, c.Moved().value);
  }

  lemma TheRest(c: Call)
    requires c == TheCall()
    ensures c.Valid() && !c.offchip && c.creation.MakesAll(8) && c.io != 0 && c.pointers
  {
    TheCreation();
    ScanValid();
  }

  lemma ScanValid()
    ensures forall b: Batch :: Scan(b).Some? ==> Scan(b).value.Valid()
  {
  }

  lemma TheFind(c: Call, b: Batch)
    requires c == TheCall() && b.commands == Rewritten()
    ensures c.find(b) == Some(Found(CLONES, 6, Some(133)))
  {
    TheScan(b);
  }

  /** A batch that is handed to the executor, with a VDEnc packet in its commands and no VDEnc rows in its
      sideband: eight records were bound, not six. */
  lemma HandedOnWithoutVdenc() returns (c: Call)
    ensures c.Valid() && c.Submits() && c.Moved().value.commands == Rewritten() && Rewritten()[133] == VDENC_HEADER
    ensures var f := c.find(c.Moved().value).value;
            f.vdenc == Some(133) && c.JobFor(f).Lines(c.MovedTable()) == 8
    ensures Without(c.Submitted().blocks, 133)
  {
    c := Received();
    HandsOn(c);
    TheScan(c.Moved().value);
  }
}
