/** What the executor makes of a batch, said on the words of its relocations and on numbers. */
module OwnershipWords {
  import opened Words
  import opened Sideband
  import opened Ownership
  import opened OwnershipBooks
  import opened OwnershipRuns
  import opened OwnershipKeeps
  import opened OwnershipBatches

  // ---- which words matter ----

  /** Two blocks name the same: both are relocation blocks of as many records, whose operations (bits 1
      to 3 of the first word) and low handles agree, and for the operations 2, 4, 5 and 6 the high
      handles too; or neither is. */
  predicate NameAlike(b: Block, b': Block) {
    b.Relocs? == b'.Relocs? &&
    (b.Relocs? ==> |b.records| == |b'.records| && forall k :: 0 <= k < |b.records| ==>
       RecordsAlike(b.records[k], b'.records[k]))
  }

  predicate RecordsAlike(r: Record, r': Record) {
    r.head / 2 % 8 == r'.head / 2 % 8 && r.handles % 0x1_0000 == r'.handles % 0x1_0000 &&
    (r.head / 2 % 8 in {2, 4, 5, 6} ==> r.handles / 0x1_0000 == r'.handles / 0x1_0000)
  }

  lemma {:induction false} SameRecords(l: Local, rs: seq<Resource>, shared: nat, recs: seq<Record>, recs': seq<Record>,
      env: Env)
    requires |recs| == |recs'| && forall k :: 0 <= k < |recs| ==> RecordsAlike(recs[k], recs'[k])
    ensures AddRecords(l, rs, shared, recs, env) == AddRecords(l, rs, shared, recs', env)
    decreases |recs|
  {
    if recs != [] && l.ok {
      assert RecordsAlike(recs[0], recs'[0]);
      SameRecords(AddRecord(l, rs, shared, recs[0], env), rs, shared, recs[1..], recs'[1..], env);
    }
  }

  lemma {:induction false} SameBlocks(l: Local, rs: seq<Resource>, shared: nat, bs: seq<Block>, bs': seq<Block>,
      env: Env)
    requires |bs| == |bs'| && forall k :: 0 <= k < |bs| ==> NameAlike(bs[k], bs'[k])
    ensures AddBlocks(l, rs, shared, bs, env) == AddBlocks(l, rs, shared, bs', env)
    decreases |bs|
  {
    if bs != [] && l.ok {
      assert NameAlike(bs[0], bs'[0]);
      if bs[0].Relocs? { SameRecords(l, rs, shared, bs[0].records, bs'[0].records, env); }
      SameBlocks(if bs[0].Relocs? then AddRecords(l, rs, shared, bs[0].records, env) else l, rs, shared, bs[1..],
                 bs'[1..], env);
    }
  }

  /** Nothing else of a well-framed sideband matters to the executor: not a record's target, nor its last
      three words, nor the high half of its second for the operations 0, 1 and 3. */
  lemma OnlyHandlesMatter(st: State, q: Request, side: seq<word>, env: Env)
    requires Parse(q.side).Some? && Parse(side).Some?
    requires |Parse(q.side).value.blocks| == |Parse(side).value.blocks|
    requires forall i :: 0 <= i < |Parse(side).value.blocks| ==>
               var (b, b') := (Parse(q.side).value.blocks[i], Parse(side).value.blocks[i]);
               b.Relocs? == b'.Relocs? &&
               (b.Relocs? ==> |b.records| == |b'.records| && forall k :: 0 <= k < |b.records| ==>
                  var (r, r') := (b.records[k], b'.records[k]);
                  r.head / 2 % 8 == r'.head / 2 % 8 && r.handles % 0x1_0000 == r'.handles % 0x1_0000 &&
                  (r.head / 2 % 8 in {2, 4, 5, 6} ==> r.handles / 0x1_0000 == r'.handles / 0x1_0000))
    ensures Begin(st, q.(side := side), env) == Begin(st, q, env)
  {
    var bs, bs' := Parse(q.side).value.blocks, Parse(side).value.blocks;
    forall i | 0 <= i < |bs| ensures NameAlike(bs[i], bs'[i]) {}
    SameBegin(st, q, side, env);
  }

  lemma SameBegin(st: State, q: Request, side: seq<word>, env: Env)
    requires Parse(q.side).Some? && Parse(side).Some?
    requires var (bs, bs') := (Parse(q.side).value.blocks, Parse(side).value.blocks);
             |bs| == |bs'| && forall k :: 0 <= k < |bs| ==> NameAlike(bs[k], bs'[k])
    ensures Begin(st, q.(side := side), env) == Begin(st, q, env)
  {
    var i := SlotFor(st.contexts, q.io);
    if i < |st.contexts| { SamePreflight(Occupy(st, i, q.io), i, q, side, env); }
  }

  lemma SamePreflight(st: State, i: nat, q: Request, side: seq<word>, env: Env)
    requires i < |st.contexts| && Parse(q.side).Some? && Parse(side).Some?
    requires var (bs, bs') := (Parse(q.side).value.blocks, Parse(side).value.blocks);
             |bs| == |bs'| && forall k :: 0 <= k < |bs| ==> NameAlike(bs[k], bs'[k])
    ensures Preflight(st, i, q.(side := side), env) == Preflight(st, i, q, env)
  {
    var c := st.contexts[i].(busy := true, charged := Bytes(q.scratch), scratch := q.scratch);
    var l := Local(c, st.reserved + Bytes(q.scratch), st.native, |q.buffers| <= 16);
    SameBlocks(AddBuffers(l, q.buffers, env), st.resources, q.shared, Parse(q.side).value.blocks,
               Parse(side).value.blocks, env);
  }

  // ---- the catalogue and its handles ----

  /** A handle is looked up in the namespace of the caller, and the first entry in use counts. */
  lemma {:induction false} MatchIsFirst(rs: seq<Resource>, shared: nat, handle: word, k: nat)
    requires k <= |rs|
    requires forall j :: 0 <= j < k ==> rs[j].obj == 0 || rs[j].shared != shared || rs[j].handle != handle
    requires k < |rs| ==> rs[k].obj != 0 && rs[k].shared == shared && rs[k].handle == handle
    ensures Match(rs, shared, handle) == if k < |rs| then Some(rs[k]) else None
  {
    if k > 0 { MatchIsFirst(rs[1..], shared, handle, k - 1); }
  }

  /** What the creation hook records: the range of kind 0x80, whose two addresses must agree and which must
      be neither empty nor at the top of the address space, or the surface of kind 0x82; of any other, and
      of a short request, nothing that could be held. */
  lemma DescribeOnWords(obj: nat, shared: nat, handle: word, input: Option<Input>, r: Resource)
    requires r == Describe(obj, shared, handle, input)
    ensures r.obj == obj && r.shared == shared && r.handle == handle
    ensures r.supported <==>
            input.Some? &&
            ((input.value.kind == 0x80 && input.value.address == input.value.second != 0 && input.value.bytes != 0 &&
              input.value.address + input.value.bytes <= 0xFFFF_FFFF_FFFF_FFFF) ||
             (input.value.kind == 0x82 && input.value.surface != 0))
    ensures r.bytes != 0 || r.address != 0 ==>
              input.Some? && input.value.kind == 0x80 && r.address == input.value.address &&
              r.bytes == input.value.bytes
    ensures r.surface != 0 ==> input.Some? && input.value.kind == 0x82 && r.surface == input.value.surface
    ensures input.Some? && input.value.kind == 0x80 ==> r.address == input.value.address && r.bytes == input.value.bytes
    ensures input.Some? && input.value.kind == 0x82 ==> r.surface == input.value.surface
  {
  }

  // ---- one hold ----

  /** What a hold of an object not held yet costs: the size of its surface's memory, or else its data, or
      its range if that is larger. It is refused without an object, past 256 holds, for a resource that
      cannot be held, and past 512 MiB in all; and it records the resource's range and surface. */
  lemma HoldOnNumbers(l: Local, obj: nat, r: Option<Resource>, env: Env, charge: nat)
    requires forall k :: 0 <= k < |l.c.held| ==> l.c.held[k].obj != obj
    requires charge >= (if r.Some? && r.value.surface != 0 then env.allocSize(r.value.surface) else env.dataSize(obj))
    requires r.Some? ==> charge >= r.value.bytes
    requires charge ==
             (if r.Some? && r.value.surface != 0 then env.allocSize(r.value.surface) else env.dataSize(obj)) ||
             (r.Some? && charge == r.value.bytes)
    ensures var out := AddHold(l, obj, r, env);
            if obj == 0 || |l.c.held| == 256 || (r.Some? && !r.value.supported) || charge + l.reserved > 0x2000_0000
            then out == l.(ok := false)
            else
              out.c.held == l.c.held + [Hold(obj, if r.Some? then r.value.address else 0,
                                             if r.Some? then r.value.bytes else 0,
                                             if r.Some? then r.value.surface else 0)] &&
              out.c.charged == l.c.charged + charge && out.reserved == l.reserved + charge && out.ok == l.ok &&
              out.native.objects == l.native.objects + multiset{obj}
  {
  }

  // ---- the answers ----

  lemma {:induction false} RecordsNamed(l: Local, rs: seq<Resource>, shared: nat, recs: seq<Record>, env: Env)
    requires l.ok && AddRecords(l, rs, shared, recs, env).ok
    ensures forall r <- recs ::
              r.handles % 0x1_0000 != 0 && (r.head / 2 % 8 in {2, 4, 5, 6} ==> r.handles / 0x1_0000 != 0)
    decreases |recs|
  {
    if recs != [] {
      RecordsNamed(AddRecord(l, rs, shared, recs[0], env), rs, shared, recs[1..], env);
      assert forall r <- recs :: r == recs[0] || r in recs[1..];
    }
  }

  lemma {:induction false} BlocksNamed(l: Local, rs: seq<Resource>, shared: nat, bs: seq<Block>, env: Env)
    requires l.ok && AddBlocks(l, rs, shared, bs, env).ok
    ensures forall b <- bs :: b.Relocs? ==> forall r <- b.records ::
              r.handles % 0x1_0000 != 0 && (r.head / 2 % 8 in {2, 4, 5, 6} ==> r.handles / 0x1_0000 != 0)
    decreases |bs|
  {
    if bs != [] {
      var l1 := if bs[0].Relocs? then AddRecords(l, rs, shared, bs[0].records, env) else l;
      if bs[0].Relocs? { RecordsNamed(l, rs, shared, bs[0].records, env); }
      BlocksNamed(l1, rs, shared, bs[1..], env);
      assert forall b <- bs :: b == bs[0] || b in bs[1..];
    }
  }

  lemma GatherNamed(l: Local, rs: seq<Resource>, q: Request, env: Env)
    requires l.ok && Gather(l, rs, q, env).ok
    ensures Parse(q.side).Some? && |q.side| >= 6
    ensures forall b <- Parse(q.side).value.blocks :: b.Relocs? ==> forall r <- b.records ::
              r.handles % 0x1_0000 != 0 && (r.head / 2 % 8 in {2, 4, 5, 6} ==> r.handles / 0x1_0000 != 0)
  {
    BlocksNamed(AddBuffers(l, q.buffers, env), rs, q.shared, Parse(q.side).value.blocks, env);
  }

  /** What a preflight that succeeds has stayed within. */
  lemma PreflightOnNumbers(st: State, i: nat, q: Request, env: Env, l: Local)
    requires i < |st.contexts| && st.contexts[i] == EMPTY.(io := q.io) && RangesOk(st.resources)
    requires st.reserved + Bytes(q.scratch) <= BUDGET && l == Preflight(st, i, q, env) && l.ok
    ensures |q.buffers| <= 16 && l.reserved <= 0x2000_0000 && |l.c.held| <= 256
    ensures Parse(q.side).Some?
    ensures forall b <- Parse(q.side).value.blocks :: b.Relocs? ==> forall r <- b.records ::
              r.handles % 0x1_0000 != 0 && (r.head / 2 % 8 in {2, 4, 5, 6} ==> r.handles / 0x1_0000 != 0)
  {
    PreflightBuilds(st, i, q, env, l);
    PreflightStarts(st, i, q, env);
    GatherNamed(Local(Starting(q.io, q.scratch), st.reserved + Bytes(q.scratch), st.native, |q.buffers| <= 16),
                st.resources, q, env);
  }

  lemma AcceptedFrom(w: World, q: Request, env: Env)
    requires Inv(w) && Begin(w.st, q, env).1.Accepted?
    ensures q.shared != 0 && q.io != 0 && q.pointers && |q.scratch| <= 11 && |q.buffers| <= 16 && |q.side| >= 6
    ensures var (st, reply) := Begin(w.st, q, env);
            reply.slot < |st.contexts| == 16 && st.reserved <= 0x2000_0000 && |st.contexts[reply.slot].held| <= 256
    ensures Parse(q.side).Some?
    ensures forall b <- Parse(q.side).value.blocks :: b.Relocs? ==> forall r <- b.records ::
              r.handles % 0x1_0000 != 0 && (r.head / 2 % 8 in {2, 4, 5, 6} ==> r.handles / 0x1_0000 != 0)
  {
    if !(WellFormed(q) && Free(w.st.contexts, q.io)) { NotBegun(w, q, env); }
    var i, st1, l := Begun(w, q, env);
    PreflightOnNumbers(st1, i, q, env, l);
  }

  /** The limits of a batch that gets to be submitted, in any run: 11 scratch buffers, 16 data buffers, 256
      holds, 512 MiB in all; and no handle it names is 0. */
  lemma AcceptedOnNumbers(before: seq<Step>, q: Request, env: Env)
    requires Begin(Run(INIT, before).st, q, env).1.Accepted?
    ensures q.shared != 0 && q.io != 0 && q.pointers && |q.scratch| <= 11 && |q.buffers| <= 16 && |q.side| >= 6
    ensures var (st, reply) := Begin(Run(INIT, before).st, q, env);
            reply.slot < |st.contexts| == 16 && st.reserved <= 0x2000_0000 && |st.contexts[reply.slot].held| <= 256
    ensures Parse(q.side).Some?
    ensures forall b <- Parse(q.side).value.blocks :: b.Relocs? ==> forall r <- b.records ::
              r.handles % 0x1_0000 != 0 && (r.head / 2 % 8 in {2, 4, 5, 6} ==> r.handles / 0x1_0000 != 0)
  {
    InitHolds();
    RunKeeps(INIT, before);
    AcceptedFrom(Run(INIT, before), q, env);
  }

  /** The answers of a call that does not get to its preflight: 0 for a malformed one; then, k being the
      slot of its native context or else the first empty one, the recorded error of a failed context, the
      busy error of a busy one, and also of a full table; and 0 again where the scratch buffers alone
      break the budget. */
  lemma TurnedAwayExactly(st: State, q: Request, env: Env, k: nat)
    requires k <= |st.contexts|
    requires if exists j :: 0 <= j < |st.contexts| && st.contexts[j].io == q.io then
               k < |st.contexts| && st.contexts[k].io == q.io && forall j :: 0 <= j < k ==> st.contexts[j].io != q.io
             else (forall j :: 0 <= j < k ==> st.contexts[j].io != 0) &&
                  (k < |st.contexts| ==> st.contexts[k].io == 0)
    ensures var reply := Begin(st, q, env).1;
            (reply == Refused <==>
             q.shared == 0 || q.io == 0 || !q.pointers || |q.scratch| > 11 || |q.side| < 6) &&
            (reply.Unavailable? ==> Begin(st, q, env).0 == st) && (reply.Refused? ==> Begin(st, q, env).0 == st)
    ensures Begin(st, q, env).1 != Refused ==>
            var reply := Begin(st, q, env).1;
            if k == |st.contexts| then reply == Unavailable(-0x1FFF_FD2B)
            else if st.contexts[k].io == q.io && st.contexts[k].failed then reply == Unavailable(st.contexts[k].error)
            else if st.contexts[k].io == q.io && st.contexts[k].busy then reply == Unavailable(-0x1FFF_FD2B)
            else !reply.Unavailable? && (reply.Accepted? ==> reply.slot == k) &&
                 (reply == Unaffordable <==> Bytes(q.scratch) + st.reserved > 0x2000_0000)
  {
    SlotIs(st.contexts, q.io, k);
  }

  lemma SlotIs(cs: seq<Context>, io: nat, k: nat)
    requires k <= |cs|
    requires if exists j :: 0 <= j < |cs| && cs[j].io == io then
               k < |cs| && cs[k].io == io && forall j :: 0 <= j < k ==> cs[j].io != io
             else (forall j :: 0 <= j < k ==> cs[j].io != 0) && (k < |cs| ==> cs[k].io == 0)
    ensures SlotFor(cs, io) == k
  {
    var a, b := Find(cs, io), Find(cs, 0);
    if a < |cs| {
      assert cs[a].io == io;
    } else if b < |cs| {
      assert cs[b].io == 0;
    }
  }

  /** The error a lost batch records is the first of the three results that is not 0, the device's read as
      a signed number, or 0xe00002bc. */
  lemma ErrorOnNumbers(result: int, device: word, finish: int)
    ensures FirstError(result, device, finish) ==
            if result != 0 then result
            else if 0 < device <= 0x7FFF_FFFF then device
            else if device != 0 then device - 0x1_0000_0000
            else if finish != 0 then finish
            else 0xE000_02BC - 0x1_0000_0000
  {
  }

  /** The tables in any run: 4096 catalogued resources, 16 contexts, 4096 deferred unmaps, and 512 MiB. */
  lemma TablesOnNumbers(steps: seq<Step>)
    ensures var st := Run(INIT, steps).st;
            |st.resources| == 4096 && |st.contexts| == 16 && |st.deferred| == 4096 && st.reserved <= 0x2000_0000
  {
    InitHolds();
    RunKeeps(INIT, steps);
  }

  // ---- exactly what is named ----

  /** A hold a handle brings is of the first catalogue entry with it, and the handle is no scratch buffer's. */
  lemma HandleHolds(l: Local, rs: seq<Resource>, shared: nat, handle: word, env: Env, obj: nat)
    requires HoldsObject(AddHandle(l, rs, shared, handle, env).c.held, obj) && !HoldsObject(l.c.held, obj)
    ensures !ScratchHas(l.c.scratch, handle) && Match(rs, shared, handle).Some? &&
            Match(rs, shared, handle).value.obj == obj
  {
    var out := AddHandle(l, rs, shared, handle, env);
    forall j | 0 <= j < |l.c.held| ensures out.c.held[j] == l.c.held[j] {}
    var k :| 0 <= k < |out.c.held| && out.c.held[k].obj == obj;
  }

  lemma {:induction false} RecordsHold(l: Local, rs: seq<Resource>, shared: nat, recs: seq<Record>, env: Env, obj: nat)
    returns (k: nat, handle: word)
    requires HoldsObject(AddRecords(l, rs, shared, recs, env).c.held, obj) && !HoldsObject(l.c.held, obj)
    ensures k < |recs|
    ensures handle == recs[k].handles % 0x1_0000 ||
            (recs[k].head / 2 % 8 in {2, 4, 5, 6} && handle == recs[k].handles / 0x1_0000)
    ensures !ScratchHas(l.c.scratch, handle) && Match(rs, shared, handle).Some? &&
            Match(rs, shared, handle).value.obj == obj
    decreases |recs|
  {
    var l1 := AddRecord(l, rs, shared, recs[0], env);
    if HoldsObject(l1.c.held, obj) {
      var low := AddHandle(l, rs, shared, Low(recs[0]), env);
      if HoldsObject(low.c.held, obj) {
        k, handle := 0, recs[0].handles % 0x1_0000;
        HandleHolds(l, rs, shared, handle, env, obj);
      } else {
        k, handle := 0, recs[0].handles / 0x1_0000;
        HandleHolds(low, rs, shared, handle, env, obj);
      }
    } else {
      k, handle := RecordsHold(l1, rs, shared, recs[1..], env, obj);
      k := k + 1;
    }
  }

  lemma {:induction false} BlocksHold(l: Local, rs: seq<Resource>, shared: nat, bs: seq<Block>, env: Env, obj: nat)
    returns (i: nat, k: nat, handle: word)
    requires HoldsObject(AddBlocks(l, rs, shared, bs, env).c.held, obj) && !HoldsObject(l.c.held, obj)
    ensures i < |bs| && bs[i].Relocs? && k < |bs[i].records|
    ensures handle == bs[i].records[k].handles % 0x1_0000 ||
            (bs[i].records[k].head / 2 % 8 in {2, 4, 5, 6} && handle == bs[i].records[k].handles / 0x1_0000)
    ensures !ScratchHas(l.c.scratch, handle) && Match(rs, shared, handle).Some? &&
            Match(rs, shared, handle).value.obj == obj
    decreases |bs|
  {
    var l1 := if bs[0].Relocs? then AddRecords(l, rs, shared, bs[0].records, env) else l;
    i := 0;
    if bs[0].Relocs? && HoldsObject(l1.c.held, obj) {
      k, handle := RecordsHold(l, rs, shared, bs[0].records, env, obj);
    } else {
      i, k, handle := BlocksHold(l1, rs, shared, bs[1..], env, obj);
      i := i + 1;
    }
  }

  lemma {:induction false} BuffersHold(l: Local, todo: seq<nat>, env: Env, obj: nat)
    requires HoldsObject(AddBuffers(l, todo, env).c.held, obj) && !HoldsObject(l.c.held, obj)
    ensures obj in todo && obj != 0
    decreases |todo|
  {
    var first := todo[0];
    var l1 := if first == 0 then l else AddHold(l, first, None, env);
    if HoldsObject(l1.c.held, obj) {
      forall j | 0 <= j < |l.c.held| ensures l1.c.held[j] == l.c.held[j] {}
      var k :| 0 <= k < |l1.c.held| && l1.c.held[k].obj == obj;
    } else {
      BuffersHold(l1, todo[1..], env, obj);
    }
  }

  /** What the preflight of an empty slot holds was a data buffer or named. */
  lemma PreflightHolds(st: State, i: nat, q: Request, env: Env, l: Local, obj: nat)
    requires i < |st.contexts| && st.contexts[i] == EMPTY.(io := q.io) && l == Preflight(st, i, q, env) && l.ok
    requires HoldsObject(l.c.held, obj)
    ensures (obj in q.buffers && obj != 0) || exists handle: word, r :: NamesResource(st, q, handle, r) && r.obj == obj
  {
    PreflightStarts(st, i, q, env);
    var l0 := Local(Starting(q.io, q.scratch), st.reserved + Bytes(q.scratch), st.native, |q.buffers| <= 16);
    var l1 := AddBuffers(l0, q.buffers, env);
    var bs := Parse(q.side).value.blocks;
    if HoldsObject(l1.c.held, obj) {
      BuffersHold(l0, q.buffers, env, obj);
    } else {
      var j, k, handle := BlocksHold(l1, st.resources, q.shared, bs, env, obj);
      assert bs[j] in bs && bs[j].records[k] in bs[j].records;
      assert NamesResource(st, q, handle, Match(st.resources, q.shared, handle).value);
    }
  }

  lemma BuffersAreHeld(st: State, i: nat, q: Request, env: Env, l: Local, obj: nat)
    requires i < |st.contexts| && st.contexts[i] == EMPTY.(io := q.io) && l == Preflight(st, i, q, env) && l.ok
    requires obj in q.buffers && obj != 0
    ensures HoldsObject(l.c.held, obj)
  {
    PreflightStarts(st, i, q, env);
    var l0 := Local(Starting(q.io, q.scratch), st.reserved + Bytes(q.scratch), st.native, |q.buffers| <= 16);
    var l1 := AddBuffers(l0, q.buffers, env);
    BuffersBlank(l0, q.buffers, env);
    var k :| 0 <= k < |l1.c.held| && l1.c.held[k].obj == obj;
    assert l1.c.held <= l.c.held && l.c.held[k] == l1.c.held[k];
  }

  /** In any run, an accepted batch holds exactly its data buffers and the catalogued resources that its
      relocations name by a handle none of its scratch buffers has. */
  lemma HoldsExactly(before: seq<Step>, q: Request, env: Env, obj: nat)
    requires Begin(Run(INIT, before).st, q, env).1.Accepted?
    ensures var (st, reply) := Begin(Run(INIT, before).st, q, env);
            reply.slot < |st.contexts| &&
            (HoldsObject(st.contexts[reply.slot].held, obj) <==>
             (obj in q.buffers && obj != 0) ||
             exists handle: word, r :: NamesResource(Run(INIT, before).st, q, handle, r) && r.obj == obj)
  {
    InitHolds();
    RunKeeps(INIT, before);
    HoldsFrom(Run(INIT, before), q, env, obj);
  }

  lemma HoldsFrom(w: World, q: Request, env: Env, obj: nat)
    requires Inv(w) && Begin(w.st, q, env).1.Accepted?
    ensures var (st, reply) := Begin(w.st, q, env);
            reply.slot < |st.contexts| &&
            (HoldsObject(st.contexts[reply.slot].held, obj) <==>
             (obj in q.buffers && obj != 0) ||
             exists handle: word, r :: NamesResource(w.st, q, handle, r) && r.obj == obj)
  {
    if !(WellFormed(q) && Free(w.st.contexts, q.io)) { NotBegun(w, q, env); }
    var i, st1, l := Begun(w, q, env);
    if HoldsObject(l.c.held, obj) {
      PreflightHolds(st1, i, q, env, l, obj);
      SameNames(w.st, st1, q);
    }
    if obj in q.buffers && obj != 0 { BuffersAreHeld(st1, i, q, env, l, obj); }
    forall handle: word, r | NamesResource(w.st, q, handle, r) && r.obj == obj ensures HoldsObject(l.c.held, obj) {
      NamedIsHeld(w.st, q, env, handle, r);
    }
  }

  lemma SameNames(st: State, st1: State, q: Request)
    requires st1.resources == st.resources
    ensures forall handle: word, r :: NamesResource(st1, q, handle, r) <==> NamesResource(st, q, handle, r)
  {
  }
}
