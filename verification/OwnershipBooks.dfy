/** What one preflight adds up to, and sums over the slots. */
module OwnershipBooks {
  import opened Words
  import opened Seqs
  import opened Sideband
  import opened Ownership

  // ---- the preflight of one slot ----

  /** Holds name distinct objects, and their ranges end below the top of the address space. */
  predicate HoldsOk(held: seq<Hold>) {
    |held| <= HELD && (forall k :: 0 <= k < |held| ==> held[k].obj != 0 && held[k].address + held[k].bytes < LIMIT) &&
    forall j, k :: 0 <= j < k < |held| ==> held[j].obj != held[k].obj
  }

  predicate RangesOk(rs: seq<Resource>) {
    forall r <- rs :: r.supported ==> r.address + r.bytes < LIMIT
  }

  /** The ledger with the references of these holds on top. */
  function Holding(n: Native, held: seq<Hold>): Native {
    n.(objects := n.objects + Objects(held), uses := n.uses + Surfaces(held), surfaces := n.surfaces + Surfaces(held))
  }

  /** l takes holds for the slot c, which had none, over the ledger n. */
  ghost predicate Built(c: Context, n: Native, l: Local) {
    l.c == c.(held := l.c.held, charged := l.c.charged) && l.native == Holding(n, l.c.held) &&
    l.reserved <= BUDGET && HoldsOk(l.c.held) && (l.c.held == [] ==> l.c.charged == c.charged)
  }

  lemma HoldingMore(n: Native, held: seq<Hold>, h: Hold)
    ensures Holding(n, held + [h]) ==
              var m := Holding(n, held);
              m.(objects := m.objects + multiset{h.obj}, uses := m.uses + Surface(h),
                  surfaces := m.surfaces + Surface(h))
  {
    assert (held + [h])[..|held|] == held;
  }

  lemma HoldsOkMore(held: seq<Hold>, h: Hold)
    requires HoldsOk(held) && |held| < HELD && !HoldsObject(held, h.obj) && h.obj != 0 && h.address + h.bytes < LIMIT
    ensures HoldsOk(held + [h])
  {
  }

  lemma BuiltTake(c: Context, n: Native, l: Local, h: Hold, charge: nat)
    requires Built(c, n, l) && HoldsOk(l.c.held + [h]) && charge + l.reserved <= BUDGET
    ensures Built(c, n, Take(l, h, charge))
  {
    HoldingMore(n, l.c.held, h);
  }

  lemma BuiltHold(c: Context, n: Native, l: Local, obj: nat, r: Option<Resource>, env: Env)
    requires Built(c, n, l) && (r.Some? && r.value.supported ==> r.value.address + r.value.bytes < LIMIT)
    ensures Built(c, n, AddHold(l, obj, r, env))
  {
    if AddHold(l, obj, r, env) != l && AddHold(l, obj, r, env) != l.(ok := false) {
      HoldsOkMore(l.c.held, NewHold(obj, r));
      BuiltTake(c, n, l, NewHold(obj, r), Charge(obj, r, env));
    }
  }

  lemma BuiltHandle(c: Context, n: Native, l: Local, rs: seq<Resource>, shared: nat, handle: word, env: Env)
    requires Built(c, n, l) && RangesOk(rs)
    ensures Built(c, n, AddHandle(l, rs, shared, handle, env))
  {
    var m := Match(rs, shared, handle);
    if m.Some? { BuiltHold(c, n, l, m.value.obj, m, env); }
  }

  lemma {:induction false} BuiltBuffers(c: Context, n: Native, l: Local, buffers: seq<nat>, env: Env)
    requires Built(c, n, l)
    ensures Built(c, n, AddBuffers(l, buffers, env))
    decreases |buffers|
  {
    if buffers != [] && l.ok {
      if buffers[0] != 0 { BuiltHold(c, n, l, buffers[0], None, env); }
      BuiltBuffers(c, n, if buffers[0] == 0 then l else AddHold(l, buffers[0], None, env), buffers[1..], env);
    }
  }

  lemma BuiltRecord(c: Context, n: Native, l: Local, rs: seq<Resource>, shared: nat, r: Record, env: Env)
    requires Built(c, n, l) && RangesOk(rs)
    ensures Built(c, n, AddRecord(l, rs, shared, r, env))
  {
    BuiltHandle(c, n, l, rs, shared, Low(r), env);
    BuiltHandle(c, n, AddHandle(l, rs, shared, Low(r), env), rs, shared, High(r), env);
  }

  lemma {:induction false} BuiltRecords(c: Context, n: Native, l: Local, rs: seq<Resource>, shared: nat,
      recs: seq<Record>, env: Env)
    requires Built(c, n, l) && RangesOk(rs)
    ensures Built(c, n, AddRecords(l, rs, shared, recs, env))
    decreases |recs|
  {
    if recs != [] && l.ok {
      BuiltRecord(c, n, l, rs, shared, recs[0], env);
      BuiltRecords(c, n, AddRecord(l, rs, shared, recs[0], env), rs, shared, recs[1..], env);
    }
  }

  lemma {:induction false} BuiltBlocks(c: Context, n: Native, l: Local, rs: seq<Resource>, shared: nat, bs: seq<Block>,
                                       env: Env)
    requires Built(c, n, l) && RangesOk(rs)
    ensures Built(c, n, AddBlocks(l, rs, shared, bs, env))
    decreases |bs|
  {
    if bs != [] && l.ok {
      if bs[0].Relocs? { BuiltRecords(c, n, l, rs, shared, bs[0].records, env); }
      BuiltBlocks(c, n, if bs[0].Relocs? then AddRecords(l, rs, shared, bs[0].records, env)
          else l, rs, shared, bs[1..], env);
    }
  }

  /** The slot as the preflight starts on it. */
  function Starting(io: nat, scratch: seq<Scratch>): Context {
    EMPTY.(io := io, busy := true, charged := Bytes(scratch), scratch := scratch)
  }

  /** The preflight from its starting point on. */
  lemma GatherBuilds(c: Context, l: Local, rs: seq<Resource>, q: Request, env: Env)
    requires l.c == c && c.held == [] && l.reserved <= BUDGET && RangesOk(rs)
    ensures Built(c, l.native, Gather(l, rs, q, env))
  {
    assert Holding(l.native, []) == l.native;
    BuiltBuffers(c, l.native, l, q.buffers, env);
    var t := Parse(q.side);
    if t.Some? { BuiltBlocks(c, l.native, AddBuffers(l, q.buffers, env), rs, q.shared, t.value.blocks, env); }
  }

  lemma PreflightStarts(st: State, i: nat, q: Request, env: Env)
    requires i < |st.contexts| && st.contexts[i] == EMPTY.(io := q.io)
    ensures Preflight(st, i, q, env) == Gather(Local(Starting(q.io, q.scratch), st.reserved + Bytes(q.scratch),
            st.native, |q.buffers| <= 16),
                                               st.resources, q, env)
  {
  }

  lemma StartedWith(c: Context, l0: Local, l: Local, rs: seq<Resource>, q: Request, env: Env)
    requires l == Gather(l0, rs, q, env) && l0.c == c
    ensures l.reserved - l.c.charged == l0.reserved - c.charged
  {
  }

  lemma PreflightBuilds(st: State, i: nat, q: Request, env: Env, l: Local)
    requires i < |st.contexts| && st.contexts[i] == EMPTY.(io := q.io) && RangesOk(st.resources)
    requires st.reserved + Bytes(q.scratch) <= BUDGET && l == Preflight(st, i, q, env)
    ensures Built(Starting(q.io, q.scratch), st.native, l) && l.reserved == st.reserved + l.c.charged
  {
    var c := Starting(q.io, q.scratch);
    var l0 := Local(c, st.reserved + Bytes(q.scratch), st.native, |q.buffers| <= 16);
    PreflightStarts(st, i, q, env);
    GatherBuilds(c, l0, st.resources, q, env);
    StartedWith(c, l0, l, st.resources, q, env);
  }

  // ---- every named handle is covered ----

  /** A scratch buffer of the slot has this handle; or the catalogue has it for an object the slot
      holds; or the catalogue does not have it, and a held object says it is its own. */
  predicate Covered(c: Context, rs: seq<Resource>, shared: nat, handle: word, env: Env) {
    ScratchHas(c.scratch, handle) ||
    match Match(rs, shared, handle)
    case Some(r) => HoldsObject(c.held, r.obj)
    case None => HeldHas(c.held, handle, env)
  }

  lemma CoveredStays(c: Context, c': Context, rs: seq<Resource>, shared: nat, handle: word, env: Env)
    requires Covered(c, rs, shared, handle, env) && c'.scratch == c.scratch && c.held <= c'.held
    ensures Covered(c', rs, shared, handle, env)
  {
    forall k | 0 <= k < |c.held| ensures c'.held[k] == c.held[k] {}
    if !ScratchHas(c.scratch, handle) {
      match Match(rs, shared, handle)
      case Some(r) =>
        var k :| 0 <= k < |c.held| && c.held[k].obj == r.obj;
        assert c'.held[k].obj == r.obj;
      case None =>
        var k :| 0 <= k < |c.held| && env.metaHandle(c.held[k].obj) == handle;
        assert env.metaHandle(c'.held[k].obj) == handle;
    }
  }

  lemma HandleCovers(l: Local, rs: seq<Resource>, shared: nat, handle: word, env: Env)
    requires AddHandle(l, rs, shared, handle, env).ok
    ensures Covered(AddHandle(l, rs, shared, handle, env).c, rs, shared, handle, env)
  {
    var l', m := AddHandle(l, rs, shared, handle, env), Match(rs, shared, handle);
    if !ScratchHas(l.c.scratch, handle) && m.Some? {
      assert HoldsObject(l'.c.held, m.value.obj) by {
        if !HoldsObject(l.c.held, m.value.obj) { assert l'.c.held[|l.c.held|].obj == m.value.obj; }
      }
    }
  }

  /** On the record's words: no operation 7; the low half of the second word is covered, and for the
      operations 2, 4, 5 and 6 the high half too. */
  predicate RecordCovered(c: Context, rs: seq<Resource>, shared: nat, r: Record, env: Env) {
    r.head / 2 % 8 != 7 && Covered(c, rs, shared, r.handles % 0x1_0000, env) &&
    (r.head / 2 % 8 in {2, 4, 5, 6} ==> Covered(c, rs, shared, r.handles / 0x1_0000, env))
  }

  lemma {:induction false} RecordsCovered(l: Local, rs: seq<Resource>, shared: nat, recs: seq<Record>, env: Env)
    requires l.ok && AddRecords(l, rs, shared, recs, env).ok
    ensures forall r <- recs :: RecordCovered(AddRecords(l, rs, shared, recs, env).c, rs, shared, r, env)
    decreases |recs|
  {
    if recs != [] {
      var first := recs[0];
      var l1 := AddRecord(l, rs, shared, first, env);
      var l2 := AddRecords(l1, rs, shared, recs[1..], env);
      assert l1.ok;
      RecordsCovered(l1, rs, shared, recs[1..], env);
      var low := AddHandle(l, rs, shared, Low(first), env);
      HandleCovers(l, rs, shared, Low(first), env);
      CoveredStays(low.c, l2.c, rs, shared, Low(first), env);
      if TwoHandles(first) {
        HandleCovers(low, rs, shared, High(first), env);
        CoveredStays(l1.c, l2.c, rs, shared, High(first), env);
      }
      forall r | r in recs ensures RecordCovered(l2.c, rs, shared, r, env) {
        assert r == first || r in recs[1..];
      }
    }
  }

  predicate BlockCovered(c: Context, rs: seq<Resource>, shared: nat, b: Block, env: Env) {
    b.Relocs? ==> forall r <- b.records :: RecordCovered(c, rs, shared, r, env)
  }

  lemma {:induction false} BlocksCovered(l: Local, rs: seq<Resource>, shared: nat, bs: seq<Block>, env: Env)
    requires l.ok && AddBlocks(l, rs, shared, bs, env).ok
    ensures forall b <- bs :: BlockCovered(AddBlocks(l, rs, shared, bs, env).c, rs, shared, b, env)
    decreases |bs|
  {
    if bs != [] {
      var l1 := if bs[0].Relocs? then AddRecords(l, rs, shared, bs[0].records, env) else l;
      var l2 := AddBlocks(l1, rs, shared, bs[1..], env);
      assert l1.ok;
      BlocksCovered(l1, rs, shared, bs[1..], env);
      if bs[0].Relocs? {
        RecordsCovered(l, rs, shared, bs[0].records, env);
        forall r | r in bs[0].records ensures RecordCovered(l2.c, rs, shared, r, env) {
          CoveredStays(l1.c, l2.c, rs, shared, Low(r), env);
          if TwoHandles(r) { CoveredStays(l1.c, l2.c, rs, shared, High(r), env); }
        }
      }
      forall b | b in bs ensures BlockCovered(l2.c, rs, shared, b, env) {
        assert b == bs[0] || b in bs[1..];
      }
    }
  }

  /** A batch that gets to be submitted is well framed, ends in its terminal token, and every handle
      its relocations name is covered: for each record the low half of its second word, and the high
      half where bits 1 to 3 of its head are 2, 4, 5 or 6; they are never 7. */
  lemma AcceptedIsCovered(st: State, q: Request, env: Env)
    requires Begin(st, q, env).1.Accepted?
    ensures Parse(q.side).Some?
    ensures var c := Begin(st, q, env).0.contexts[Begin(st, q, env).1.slot];
            c.io == q.io && c.scratch == q.scratch &&
            forall b <- Parse(q.side).value.blocks :: b.Relocs? ==> forall r <- b.records ::
              r.head / 2 % 8 != 7 && Covered(c, st.resources, q.shared, r.handles % 0x1_0000, env) &&
              (r.head / 2 % 8 in {2, 4, 5, 6} ==> Covered(c, st.resources, q.shared, r.handles / 0x1_0000, env))
  {
    AcceptedCovers(st, q, env);
    var c, bs := Begin(st, q, env).0.contexts[Begin(st, q, env).1.slot], Parse(q.side).value.blocks;
    CoveredOnWords(c, st.resources, q.shared, bs, env);
  }

  lemma CoveredOnWords(c: Context, rs: seq<Resource>, shared: nat, bs: seq<Block>, env: Env)
    requires forall b <- bs :: BlockCovered(c, rs, shared, b, env)
    ensures forall b <- bs :: b.Relocs? ==> forall r <- b.records ::
              r.head / 2 % 8 != 7 && Covered(c, rs, shared, r.handles % 0x1_0000, env) &&
              (r.head / 2 % 8 in {2, 4, 5, 6} ==> Covered(c, rs, shared, r.handles / 0x1_0000, env))
  {
    forall b, r | b in bs && b.Relocs? && r in b.records ensures RecordCovered(c, rs, shared, r, env) {
      assert BlockCovered(c, rs, shared, b, env);
    }
  }

  lemma AcceptedCovers(st: State, q: Request, env: Env)
    requires Begin(st, q, env).1.Accepted?
    ensures Parse(q.side).Some?
    ensures var c := Begin(st, q, env).0.contexts[Begin(st, q, env).1.slot];
            c.io == q.io && c.scratch == q.scratch &&
            forall b <- Parse(q.side).value.blocks :: BlockCovered(c, st.resources, q.shared, b, env)
  {
    var i := SlotFor(st.contexts, q.io);
    var st1 := Occupy(st, i, q.io);
    var l := Preflight(st1, i, q, env);
    var c := st1.contexts[i].(busy := true, charged := Bytes(q.scratch), scratch := q.scratch);
    var l1 := AddBuffers(Local(c, st1.reserved + Bytes(q.scratch), st1.native, |q.buffers| <= 16), q.buffers, env);
    var bs := Parse(q.side).value.blocks;
    BlocksCovered(l1, st.resources, q.shared, bs, env);
    var c' := l.c.(activity := true);
    forall b | b in bs ensures BlockCovered(c', st.resources, q.shared, b, env) {
      assert BlockCovered(l.c, st.resources, q.shared, b, env);
      if b.Relocs? {
        forall r | r in b.records ensures RecordCovered(c', st.resources, q.shared, r, env) {
          CoveredStays(l.c, c', st.resources, q.shared, Low(r), env);
          if TwoHandles(r) { CoveredStays(l.c, c', st.resources, q.shared, High(r), env); }
        }
      }
    }
  }

  // ---- sums over the slots ----

  function Sum(f: Context -> nat, cs: seq<Context>): nat {
    if cs == [] then 0 else f(cs[0]) + Sum(f, cs[1..])
  }

  function Bag<T>(f: Context -> multiset<T>, cs: seq<Context>): multiset<T> {
    if cs == [] then multiset{} else f(cs[0]) + Bag(f, cs[1..])
  }

  lemma {:induction false} SumUpdate(f: Context -> nat, cs: seq<Context>, i: nat, c: Context)
    requires i < |cs|
    ensures Sum(f, cs[i := c]) + f(cs[i]) == Sum(f, cs) + f(c)
    ensures f(cs[i]) <= Sum(f, cs)
  {
    if i == 0 {
      assert cs[i := c][1..] == cs[1..];
    } else {
      SumUpdate(f, cs[1..], i - 1, c);
      assert cs[i := c][1..] == cs[1..][i - 1 := c];
    }
  }

  lemma {:induction false} BagUpdate<T>(f: Context -> multiset<T>, cs: seq<Context>, i: nat, c: Context)
    requires i < |cs|
    ensures Bag(f, cs[i := c]) + f(cs[i]) == Bag(f, cs) + f(c)
    ensures f(cs[i]) <= Bag(f, cs)
  {
    var rest := Bag(f, cs[1..]);
    if i == 0 {
      assert cs[i := c][1..] == cs[1..];
      assert (f(c) + rest) + f(cs[0]) == (f(cs[0]) + rest) + f(c);
    } else {
      BagUpdate(f, cs[1..], i - 1, c);
      assert cs[i := c][1..] == cs[1..][i - 1 := c];
      AddBoth(f(cs[0]), Bag(f, cs[1..][i - 1 := c]), f(cs[i]), rest, f(c));
    }
  }
}
