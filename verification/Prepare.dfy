/** The edits `prepare` (prepare_gen12_probe.cpp) makes to the relocation table, block by block:
    drop obsolete row-store records, clone chroma and reference-surface records, rebind line
    buffers to scratch handles, append new bindings. Every edit keeps a block's size. */
module Prepare {
  import opened Words
  import opened Seqs
  import opened Sideband

  // ---- edits block by block ----

  type Edit = Block -> Block

  function EditBlocks(f: Edit, bs: seq<Block>): (out: seq<Block>)
    ensures |out| == |bs| && forall i :: 0 <= i < |bs| ==> out[i] == f(bs[i])
  {
    seq(|bs|, i requires 0 <= i < |bs| => f(bs[i]))
  }

  function EditTable(f: Edit, t: Table): Table {
    t.(blocks := EditBlocks(f, t.blocks))
  }

  /** An edit that keeps a block's grammar, its size, and the tokens of blocks it does not know. */
  ghost predicate Keeps(f: Edit, b: Block) {
    f(b).Valid() && f(b).Size() == b.Size() && f(b).Relocs? == b.Relocs? && (b.Plain? ==> f(b) == b)
  }

  lemma EditValid(f: Edit, t: Table)
    requires t.Valid() && forall b <- t.blocks :: Keeps(f, b)
    ensures EditTable(f, t).Valid()
  {
    forall b | b in EditTable(f, t).blocks ensures b.Valid() {
      var i :| 0 <= i < |t.blocks| && EditBlocks(f, t.blocks)[i] == b;
      assert t.blocks[i] in t.blocks;
    }
  }

  // ---- dropping row-store records ----

  /** The three off-chip row stores of the Gen11 pipe-buffer packet at word `pipe`. */
  predicate IsRow(pipe: nat, r: Record) {
    Target(r.head) == pipe + 4 || Target(r.head) == pipe + 13 || Target(r.head) == pipe + 22
  }

  /** (head & 0x8000001f) == 0x11 */
  predicate PlainAccess(r: Record) { r.head < 0x8000_0000 && r.head % 32 == 0x11 }

  function Keep(pipe: nat, rs: seq<Record>): (out: seq<Record>)
    ensures |out| <= |rs|
  {
    if rs == [] then []
    else if IsRow(pipe, rs[0]) then Keep(pipe, rs[1..])
    else [rs[0]] + Keep(pipe, rs[1..])
  }

  predicate RowsOk(pipe: nat, rs: seq<Record>) {
    forall r <- rs :: IsRow(pipe, r) ==> PlainAccess(r)
  }

  function DropRows(pipe: nat): Edit {
    (b: Block) =>
      match b
      case Plain(_, _) => b
      case Relocs(base, base2, rs, slack) => Relocs(base, base2, Keep(pipe, rs), slack + 5 * (|rs| - |Keep(pipe, rs)|))
  }

  /** Exactly the other records survive, in order. */
  lemma {:induction false} KeepIsFilter(pipe: nat, rs: seq<Record>)
    ensures forall r :: r in Keep(pipe, rs) <==> r in rs && !IsRow(pipe, r)
    ensures multiset(Keep(pipe, rs)) <= multiset(rs)
  {
    if rs != [] {
      KeepIsFilter(pipe, rs[1..]);
      Uncons(rs);
      assert forall r :: r in rs <==> r == rs[0] || r in rs[1..];
      assert multiset(rs) == multiset{rs[0]} + multiset(rs[1..]);
    }
  }

  /** Keeping is order-preserving: it distributes over concatenation. */
  lemma {:induction false} KeepAppend(pipe: nat, a: seq<Record>, b: seq<Record>)
    ensures Keep(pipe, a + b) == Keep(pipe, a) + Keep(pipe, b)
  {
    if a == [] {
      assert a + b == b;
    } else {
      CutAppend(a, b, 1);
      KeepAppend(pipe, a[1..], b);
    }
  }

  // ---- cloning chroma and reference-surface records ----

  /** Where the rewritten commands want a second row offset, and the two surface-state packets. */
  datatype Clones = Clones(chroma: set<nat>, recon: nat, reference: nat) {
    predicate Valid() {
      (forall c <- chroma :: c + 1 < FIELD) && recon + 2 < FIELD && reference + 2 < FIELD
    }

    predicate IsChroma(r: Record) { Target(r.head) in chroma }

    predicate IsSurface(r: Record) {
      recon != 0 && reference != 0 && (Target(r.head) == recon + 1 || Target(r.head) == recon + 2)
    }

    /** The clones of one record: the V row offset behind the U one, and the reference surface's
        binding behind the reconstructed one's. */
    function Of(r: Record): seq<Record>
      requires Valid()
    {
      (if IsChroma(r) then [r.(head := Retarget(r.head, Target(r.head) + 1))] else []) +
      (if IsSurface(r) then [SurfaceClone(r)] else [])
    }

    function SurfaceClone(r: Record): Record
      requires Valid() && IsSurface(r)
    {
      var offset := Target(r.head) - recon;
      Record(Retarget(r.head, reference + offset), r.handles,
             if offset == 1 then r.w2 % 0x1000_0000 + 0x5000_0000 else r.w2, r.w3, r.w4)
    }

    function All(rs: seq<Record>): seq<Record>
      requires Valid()
    {
      if rs == [] then [] else Of(rs[0]) + All(rs[1..])
    }

    /** (head & 0x8000001f) == 0x80000015 for every chroma record. */
    predicate Ok(rs: seq<Record>) {
      forall r <- rs :: IsChroma(r) ==> r.head >= 0x8000_0000 && r.head % 32 == 0x15
    }

    function Edit(): Edit
      requires Valid()
    {
      (b: Block) =>
        match b
        case Plain(_, _) => b
        case Relocs(base, base2, rs, slack) =>
          if 5 * |All(rs)| < slack then Relocs(base, base2, rs + All(rs), slack - 5 * |All(rs)|) else b
    }
  }

  lemma CloneFields(c: Clones, r: Record, clone: Record)
    requires c.Valid() && clone in c.Of(r)
    ensures clone == r.(head := clone.head, w2 := clone.w2) && clone.head == Retarget(r.head, Target(clone.head))
    ensures clone.w2 == r.w2 || (c.IsSurface(r) && clone.w2 % 0x1000_0000 == r.w2 % 0x1000_0000 &&
            clone.w2 / 0x1000_0000 == 5)
    ensures clone.head % 2 == r.head % 2
  {
    if c.IsChroma(r) { RetargetFields(r.head, Target(r.head) + 1); }
    if c.IsSurface(r) { RetargetFields(r.head, c.reference + (Target(r.head) - c.recon)); }
  }

  /** Every clone copies some record, but for its target and, on the first word of a reference
      surface, the surface-id nibble. */
  lemma {:induction false} ClonesDifferOnlyInTarget(c: Clones, rs: seq<Record>, clone: Record)
    requires c.Valid() && clone in c.All(rs)
    ensures exists r :: r in rs && clone in c.Of(r) &&
              clone == r.(head := Retarget(r.head, Target(clone.head)), w2 := clone.w2) &&
              (clone.w2 == r.w2 || (clone.w2 % 0x1000_0000 == r.w2 % 0x1000_0000 && clone.w2 / 0x1000_0000 == 5))
  {
    if clone in c.Of(rs[0]) {
      CloneFields(c, rs[0], clone);
      assert rs[0] in rs;
    } else {
      ClonesDifferOnlyInTarget(c, rs[1..], clone);
      assert forall r <- rs[1..] :: r in rs;
    }
  }

  lemma {:induction false} ClonesValid(c: Clones, rs: seq<Record>)
    requires c.Valid() && forall r <- rs :: r.Valid()
    ensures forall x <- c.All(rs) :: x.Valid()
  {
    forall x | x in c.All(rs) ensures x.Valid() {
      ClonesDifferOnlyInTarget(c, rs, x);
      var r :| r in rs && x in c.Of(r) && x.head == Retarget(r.head, Target(x.head));
      CloneFields(c, r, x);
    }
  }

  // ---- rebinding and appending ----

  /** The line buffers of the Gen12 pipe-buffer packet at word `pipe`, and the handles they get. */
  datatype Rebind = Rebind(pipe: nat, handles: seq<word>) {
    predicate Valid() { |handles| == 6 }

    /** Which of the six line buffers a record addresses, or 6. */
    function Slot(r: Record): (k: nat)
      ensures k <= 6
    {
      if Target(r.head) == pipe + 7 then 0 else if Target(r.head) == pipe + 10 then 1
      else if Target(r.head) == pipe + 16 then 2 else if Target(r.head) == pipe + 19 then 3
      else if Target(r.head) == pipe + 25 then 4 else if Target(r.head) == pipe + 28 then 5
      else 6
    }

    predicate Bound(r: Record) { Slot(r) < 6 && r.head < 0x8000_0000 }

    function Of(r: Record): Record
      requires Valid()
    {
      if Bound(r) then r.(handles := handles[Slot(r)]) else r
    }

    function All(rs: seq<Record>): (out: seq<Record>)
      requires Valid()
      ensures |out| == |rs| && forall i :: 0 <= i < |rs| ==> out[i] == Of(rs[i])
    {
      seq(|rs|, i requires 0 <= i < |rs| => Of(rs[i]))
    }

    function Edit(): Edit
      requires Valid()
    {
      (b: Block) =>
        match b
        case Plain(_, _) => b
        case Relocs(base, base2, rs, slack) => Relocs(base, base2, All(rs), slack)
    }
  }

  /** A fresh binding of `handle` at `target`. */
  function Fresh(target: nat, handle: word): Record
    requires target < FIELD
  {
    Record(FreshHead(target), handle, 0, 0, 0)
  }

  /** The three line buffers put off-chip above 2048 pixels. */
  function Offchip(pipe: nat, h: seq<word>): seq<Record>
    requires pipe + 22 < FIELD && |h| == 3
  {
    [Fresh(pipe + 4, h[0]), Fresh(pipe + 13, h[1]), Fresh(pipe + 22, h[2])]
  }

  /** Append records where the zero tail is longer than they are, so that a tail remains. */
  function Append(new_: seq<Record>): Edit {
    (b: Block) =>
      match b
      case Plain(_, _) => b
      case Relocs(base, base2, rs, slack) =>
        if 5 * |new_| < slack then Relocs(base, base2, rs + new_, slack - 5 * |new_|) else b
  }

  // ---- every edit keeps the grammar ----

  lemma DropRowsKeeps(pipe: nat, b: Block)
    requires b.Valid()
    ensures Keeps(DropRows(pipe), b)
    ensures b.Relocs? ==> DropRows(pipe)(b).slack >= b.slack
  {
    if b.Relocs? { KeepIsFilter(pipe, b.records); }
  }

  lemma CloneKeeps(c: Clones, b: Block)
    requires c.Valid() && b.Valid()
    ensures Keeps(c.Edit(), b)
  {
    if b.Relocs? { ClonesValid(c, b.records); }
  }

  lemma RebindKeeps(r: Rebind, b: Block)
    requires r.Valid() && b.Valid()
    ensures Keeps(r.Edit(), b)
  {
    if b.Relocs? {
      forall i | 0 <= i < |b.records| ensures r.Of(b.records[i]).Valid() { assert b.records[i] in b.records; }
    }
  }

  lemma AppendKeeps(new_: seq<Record>, b: Block)
    requires b.Valid() && forall r <- new_ :: r.Valid()
    ensures Keeps(Append(new_), b)
  {
  }

  predicate HasTail(b: Block) { b.Relocs? ==> b.slack > 0 }

  /** The edits after the rewrite, in the source's order: the clones, which are refused unless every
      relocation block keeps a zero tail, then the rebinding, the two VDEnc bindings, and above
      2048 pixels the three off-chip line buffers. */
  datatype Plan = Plan(clones: Clones, rebind: Rebind, vdenc: seq<Record>, offchip: seq<Record>) {
    predicate Valid() {
      clones.Valid() && rebind.Valid() &&
      (forall r <- vdenc :: r.Valid()) && (forall r <- offchip :: r.Valid())
    }

    function Run(b: Block): Block
      requires Valid()
    {
      Append(offchip)(Append(vdenc)(rebind.Edit()(clones.Edit()(b))))
    }

    function Edit(): Edit
      requires Valid()
    {
      (b: Block) => Run(b)
    }
  }

  predicate ClonesFit(p: Plan, b: Block)
    requires p.Valid()
  {
    b.Relocs? ==> 5 * |p.clones.All(b.records)| < b.slack
  }

  /** Whatever table the edits start from, the executor walks the result with the same block
      boundaries; each edited block still ends in at least one zero word; and its records are the
      old ones rebound, in order, then their clones, then the appended bindings. */
  lemma PlanKeepsGrammar(p: Plan, t: Table)
    requires p.Valid() && t.Valid() && forall b <- t.blocks :: ClonesFit(p, b)
    ensures EditTable(p.Edit(), t).Valid()
    ensures Parse(Encode(EditTable(p.Edit(), t))) == Some(EditTable(p.Edit(), t))
    ensures forall i :: 0 <= i < |t.blocks| ==>
              var b, b' := t.blocks[i], p.Run(t.blocks[i]);
              b'.Size() == b.Size() && HasTail(b') && (b.Plain? ==> b' == b) &&
              (b.Relocs? ==> RunsTo(p, b, b'))
  {
    forall b | b in t.blocks
      ensures Keeps(p.Edit(), b) && HasTail(p.Run(b))
      ensures b.Relocs? ==> RunsTo(p, b, p.Run(b))
    {
      RunKeeps(p, b);
    }
    EditValid(p.Edit(), t);
    ParseEncode(EditTable(p.Edit(), t));
    forall i | 0 <= i < |t.blocks| ensures t.blocks[i] in t.blocks {}
  }

  /** The appended bindings: none, either group, or both. */
  predicate Added(p: Plan, added: seq<Record>) {
    added == [] || added == p.vdenc || added == p.offchip || added == p.vdenc + p.offchip
  }

  ghost predicate RunsTo(p: Plan, b: Block, out: Block)
    requires p.Valid() && b.Relocs?
  {
    out.Relocs? && out.base == b.base && out.base2 == b.base2 &&
    (exists added :: Added(p, added) && out.records == p.rebind.All(b.records + p.clones.All(b.records)) + added)
  }

  lemma RunKeeps(p: Plan, b: Block)
    requires p.Valid() && b.Valid() && ClonesFit(p, b)
    ensures Keeps(p.Edit(), b) && HasTail(p.Run(b))
    ensures b.Relocs? ==> RunsTo(p, b, p.Run(b))
  {
    CloneKeeps(p.clones, b);
    var b1 := p.clones.Edit()(b);
    RebindKeeps(p.rebind, b1);
    var b2 := p.rebind.Edit()(b1);
    AppendKeeps(p.vdenc, b2);
    var b3 := Append(p.vdenc)(b2);
    AppendKeeps(p.offchip, b3);
    if b.Relocs? {
      var rs := p.rebind.All(b.records + p.clones.All(b.records));
      assert b2 == Relocs(b.base, b.base2, rs, b1.slack);
      var added := (if 5 * |p.vdenc| < b2.slack then p.vdenc else []) +
                   (if 5 * |p.offchip| < b3.slack then p.offchip else []);
      assert rs + added == p.Run(b).records by {
        Assoc(rs, p.vdenc, p.offchip);
        assert rs + [] == rs && [] + p.offchip == p.offchip && p.vdenc + [] == p.vdenc;
      }
      assert Added(p, added) by { assert [] + p.offchip == p.offchip && p.vdenc + [] == p.vdenc; }
    }
  }
}
