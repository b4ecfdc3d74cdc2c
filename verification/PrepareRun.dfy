/** `prepare` from the rewritten sideband to the one it hands to the executor: the four passes in
    order, with the source's counts deciding between them. */
module PrepareRun {
  import opened Words
  import opened Sideband
  import opened Prepare
  import opened PrepareLoops

  /** What `prepare` read off the rewritten commands and allocated: the clone targets, the pipe-buffer
      packet, the VDEnc packet if there is exactly one, and eight or eleven scratch handles. */
  datatype Job = Job(clones: Clones, pipe: nat, vdenc: Option<nat>, offchip: bool, handles: seq<word>) {
    predicate Valid() {
      clones.Valid() && pipe + 28 < FIELD && (vdenc.Some? ==> vdenc.value + 65 < FIELD) && |handles| == 11
    }

    function Line(): Rebind
      requires Valid()
    {
      Rebind(pipe, handles[..6])
    }

    function VdencRows(): seq<Record>
      requires Valid() && vdenc.Some?
    {
      Vdenc(vdenc.value, handles[6], handles[7])
    }

    lemma RowsValid()
      requires Valid()
      ensures vdenc.Some? ==> forall r <- VdencRows() :: r.Valid()
    {
      if vdenc.Some? { VdencValid(vdenc.value, handles[6], handles[7]); }
    }

    function OffchipRows(): seq<Record>
      requires Valid()
    {
      Offchip(pipe, handles[8..])
    }

    /** How many records the rebinding pass binds. */
    function Lines(t0: Table): nat
      requires Valid()
    {
      BoundIn(Line(), EditTable(clones.Edit(), t0).blocks)
    }

    function Bound(t0: Table): Table
      requires Valid()
    {
      EditTable(Line().Edit(), EditTable(clones.Edit(), t0))
    }

    /** The VDEnc rows are appended exactly when six line buffers were bound. */
    function VdencPart(t0: Table): seq<Record>
      requires Valid()
    {
      if vdenc.Some? && Lines(t0) == 6 then VdencRows() else []
    }

    function AfterVdenc(t0: Table): Table
      requires Valid()
    {
      EditTable(Append(VdencPart(t0)), Bound(t0))
    }

    function Eight(t0: Table): nat
      requires Valid()
    {
      Lines(t0) + if vdenc.Some? && Lines(t0) == 6 then TakenIn(2, Bound(t0).blocks) else 0
    }

    function OffchipPart(t0: Table): seq<Record>
      requires Valid()
    {
      if offchip && Eight(t0) == 8 then OffchipRows() else []
    }

    function Rebound(t0: Table): nat
      requires Valid()
    {
      Eight(t0) + if offchip && Eight(t0) == 8 then TakenIn(3, AfterVdenc(t0).blocks) else 0
    }

    function ThePlan(t0: Table): (p: Plan)
      requires Valid()
      ensures p.Valid()
    {
      OffchipValid(pipe, handles[8..]);
      RowsValid();
      Plan(clones, Line(), VdencPart(t0), OffchipPart(t0))
    }

    /** Where `prepare` goes on to submit. */
    predicate Accepts(t0: Table)
      requires Valid()
    {
      ClonesOkIn(clones, t0.blocks) && ClonesIn(clones, t0.blocks) == 5 &&
      (offchip && Eight(t0) == 8 ==> RoomIn(AfterVdenc(t0).blocks)) &&
      Rebound(t0) == if offchip then 11 else 8
    }
  }

  lemma Compose(f: Edit, g: Edit, h: Edit, k: Edit, whole: Edit, t: Table)
    requires forall b <- t.blocks :: k(h(g(f(b)))) == whole(b)
    ensures EditTable(k, EditTable(h, EditTable(g, EditTable(f, t)))) == EditTable(whole, t)
  {
    var a, b := EditBlocks(k, EditBlocks(h, EditBlocks(g, EditBlocks(f, t.blocks)))), EditBlocks(whole, t.blocks);
    forall i | 0 <= i < |t.blocks| ensures a[i] == b[i] { assert t.blocks[i] in t.blocks; }
    assert a == b;
  }

  /** The passes one after the other are the plan run block by block. */
  lemma PassesArePlan(j: Job, t0: Table)
    requires j.Valid()
    ensures EditTable(Append(j.OffchipPart(t0)), j.AfterVdenc(t0)) == EditTable(j.ThePlan(t0).Edit(), t0)
  {
    Compose(j.clones.Edit(), j.Line().Edit(), Append(j.VdencPart(t0)), Append(j.OffchipPart(t0)), j.ThePlan(t0).Edit(),
            t0);
  }

  lemma AppendNothing(t: Table)
    ensures EditTable(Append([]), t) == t
  {
    forall i | 0 <= i < |t.blocks| ensures Append([])(t.blocks[i]) == t.blocks[i] {
      if t.blocks[i].Relocs? { assert t.blocks[i].records + [] == t.blocks[i].records; }
    }
    assert EditBlocks(Append([]), t.blocks) == t.blocks;
  }

  /** The sideband passes of `prepare` after the rewrite, in place. */
  method EditSideband(s: array<word>, j: Job, ghost t0: Table) returns (accepted: bool)
    requires j.Valid() && t0.Valid() && s[..] == Encode(t0)
    modifies s
    ensures accepted <==> j.Accepts(t0)
    ensures accepted ==>
              EditTable(j.ThePlan(t0).Edit(), t0).Valid() && s[..] == Encode(EditTable(j.ThePlan(t0).Edit(), t0))
  {
    var cloned, added := CloneRelocations(s, j.clones, t0);
    if !cloned || added != 5 { return false; }
    accepted := BindScratch(s, j, t0);
  }

  /** The passes behind the clones, which bind the scratch buffers. */
  method BindScratch(s: array<word>, j: Job, ghost t0: Table) returns (accepted: bool)
    requires j.Valid() && t0.Valid() && ClonesOkIn(j.clones, t0.blocks) && ClonesIn(j.clones, t0.blocks) == 5
    requires EditTable(j.clones.Edit(), t0).Valid() && s[..] == Encode(EditTable(j.clones.Edit(), t0))
    modifies s
    ensures accepted <==> j.Accepts(t0)
    ensures accepted ==>
              EditTable(j.ThePlan(t0).Edit(), t0).Valid() && s[..] == Encode(EditTable(j.ThePlan(t0).Edit(), t0))
  {
    var rebound := RebindLineBuffers(s, Rebind(j.pipe, j.handles[..6]), EditTable(j.clones.Edit(), t0));
    AppendNothing(j.Bound(t0));
    if j.vdenc.Some? && rebound == 6 {
      var more := AppendVdenc(s, j.vdenc.value, j.handles[6], j.handles[7], j.Bound(t0));
      rebound := rebound + more;
    }
    AppendNothing(j.AfterVdenc(t0));
    PassesArePlan(j, t0);
    if j.offchip && rebound == 8 {
      var fits, more := AppendOffchip(s, j.pipe, j.handles[8..], j.AfterVdenc(t0));
      if !fits { return false; }
      rebound := rebound + more;
    }
    accepted := rebound == if j.offchip then 11 else 8;
  }

  lemma {:induction false} TakenIs(n: nat, bs: seq<Block>)
    requires n > 0 && TakenIn(n, bs) == n
    ensures exists i :: 0 <= i < |bs| && Takes(n, bs[i]) && forall k :: 0 <= k < |bs| && k != i ==> !Takes(n, bs[k])
  {
    if Takes(n, bs[0]) {
      NoneTakes(n, bs[1..]);
      assert forall k :: 0 < k < |bs| ==> bs[k] == bs[1..][k - 1];
    } else {
      TakenIs(n, bs[1..]);
      var i :| 0 <= i < |bs| - 1 && Takes(n, bs[1..][i]) && forall k :: 0 <= k < |bs| - 1 && k != i ==>
          !Takes(n, bs[1..][k]);
      assert forall k :: 0 < k < |bs| ==> bs[k] == bs[1..][k - 1];
      assert Takes(n, bs[i + 1]);
    }
  }

  lemma {:induction false} TakenMultiple(bs: seq<Block>) returns (k: nat)
    ensures TakenIn(2, bs) == 2 * k
  {
    k := 0;
    if bs != [] {
      k := TakenMultiple(bs[1..]);
      if Takes(2, bs[0]) { k := k + 1; }
    }
  }

  lemma {:induction false} NoneTakes(n: nat, bs: seq<Block>)
    requires n > 0 && TakenIn(n, bs) == 0
    ensures forall k :: 0 <= k < |bs| ==> !Takes(n, bs[k])
  {
    if bs != [] {
      NoneTakes(n, bs[1..]);
      assert forall k :: 0 < k < |bs| ==> bs[k] == bs[1..][k - 1];
    }
  }

  /** Whatever sideband `prepare` hands on, the executor walks it as the plan's table, block for
      block, and every relocation block still ends in a zero word. */
  lemma PreparedIsWalked(j: Job, t0: Table)
    requires j.Valid() && t0.Valid() && j.Accepts(t0)
    ensures EditTable(j.ThePlan(t0).Edit(), t0).Valid()
    ensures Parse(Encode(EditTable(j.ThePlan(t0).Edit(), t0))) == Some(EditTable(j.ThePlan(t0).Edit(), t0))
    ensures forall b <- t0.blocks :: HasTail(j.ThePlan(t0).Run(b)) && j.ThePlan(t0).Run(b).Size() == b.Size()
  {
    EachClonesOk(j.clones, t0.blocks);
    PlanKeepsGrammar(j.ThePlan(t0), t0);
    forall b | b in t0.blocks ensures HasTail(j.ThePlan(t0).Run(b)) && j.ThePlan(t0).Run(b).Size() == b.Size() {
      var i :| 0 <= i < |t0.blocks| && t0.blocks[i] == b;
    }
  }

  /** The sideband `prepare` hands on. */
  function Final(j: Job, t0: Table): Table
    requires j.Valid()
  {
    EditTable(j.ThePlan(t0).Edit(), t0)
  }

  /** The VDEnc rows of block i: they go in if six records were bound to line buffers and there is room. */
  function VdencIn(j: Job, t0: Table, i: nat): seq<Record>
    requires j.Valid() && i < |t0.blocks|
  {
    if j.vdenc.Some? && j.Lines(t0) == 6 && Takes(2, j.Bound(t0).blocks[i]) then j.VdencRows() else []
  }

  /** The off-chip rows of block i: they go in if eight records were bound by then and there is room. */
  function OffchipIn(j: Job, t0: Table, i: nat): seq<Record>
    requires j.Valid() && i < |t0.blocks|
  {
    if j.offchip && j.Eight(t0) == 8 && Takes(3, j.AfterVdenc(t0).blocks[i]) then j.OffchipRows() else []
  }

  /** What a block of the result has: its records rebound, its clones rebound, and the new rows. */
  lemma FinalRecords(j: Job, t0: Table, i: nat)
    requires j.Valid() && i < |t0.blocks| && t0.blocks[i].Relocs?
    requires 5 * |j.clones.All(t0.blocks[i].records)| < t0.blocks[i].slack
    ensures Final(j, t0).blocks[i].Relocs?
    ensures Final(j, t0).blocks[i].records
            == j.Line().All(t0.blocks[i].records + j.clones.All(t0.blocks[i].records)) +
               VdencIn(j, t0, i) + OffchipIn(j, t0, i)
  {
    PassesArePlan(j, t0);
    AppendNothing(j.Bound(t0));
    AppendNothing(j.AfterVdenc(t0));
    var b2, b3 := j.Bound(t0).blocks[i], j.AfterVdenc(t0).blocks[i];
    assert b2.records == j.Line().All(t0.blocks[i].records + j.clones.All(t0.blocks[i].records));
    assert b2.records + [] == b2.records && b3.records + [] == b3.records;
  }

  /** The counts alone do not make sure that the VDEnc rows are bound: of a sideband that is handed on
      they are there exactly when the line-buffer pass bound six records. Then one block takes them and
      no other has room; otherwise eight records, or above 2048 pixels also eleven, were bound, and the
      count comes out as if the rows were there. */
  lemma VdencBoundExactly(j: Job, t0: Table)
    requires j.Valid() && t0.Valid() && j.Accepts(t0)
    ensures forall i :: 0 <= i < |t0.blocks| && t0.blocks[i].Relocs? ==>
              Final(j, t0).blocks[i].Relocs? && Final(j, t0).blocks[i].records
                == j.Line().All(t0.blocks[i].records + j.clones.All(t0.blocks[i].records)) +
                   VdencIn(j, t0, i) + OffchipIn(j, t0, i)
    ensures (exists i :: 0 <= i < |t0.blocks| && VdencIn(j, t0, i) != []) <==> j.Lines(t0) == 6
    ensures j.Lines(t0) == 6 || j.Lines(t0) == 8 || (j.offchip && j.Lines(t0) == 11)
    ensures j.Lines(t0) == 6 ==>
              j.vdenc.Some? &&
              exists i :: 0 <= i < |t0.blocks| && VdencIn(j, t0, i) == j.VdencRows() &&
                          forall k :: 0 <= k < |t0.blocks| && k != i ==> VdencIn(j, t0, k) == []
  {
    EachClonesOk(j.clones, t0.blocks);
    forall i | 0 <= i < |t0.blocks| && t0.blocks[i].Relocs?
      ensures Final(j, t0).blocks[i].Relocs?
      ensures Final(j, t0).blocks[i].records
              == j.Line().All(t0.blocks[i].records + j.clones.All(t0.blocks[i].records)) +
                 VdencIn(j, t0, i) + OffchipIn(j, t0, i)
    {
      assert t0.blocks[i] in t0.blocks;
      FinalRecords(j, t0, i);
    }
    if j.Lines(t0) == 6 {
      var twos := TakenMultiple(j.Bound(t0).blocks);
      TakenIs(2, j.Bound(t0).blocks);
      var i :| 0 <= i < |t0.blocks| && Takes(2, j.Bound(t0).blocks[i]) &&
               forall k :: 0 <= k < |t0.blocks| && k != i ==> !Takes(2, j.Bound(t0).blocks[k]);
      assert VdencIn(j, t0, i) == j.VdencRows();
    }
  }
}
