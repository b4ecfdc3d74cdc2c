/** What a batch that reaches the device, or does not, leaves in its slot, and which ranges its holds
    protect. */
module OwnershipBatches {
  import opened Words
  import opened Sideband
  import opened Ownership
  import opened OwnershipBooks
  import opened OwnershipRuns
  import opened OwnershipKeeps
  import opened OwnershipSlotLife

  // ---- accepted batches ----

  /** No step of the run moves thread tid. */
  predicate Still(steps: seq<Step>, tid: nat) {
    forall k :: 0 <= k < |steps| ==> Elsewhere(steps[k], tid)
  }

  predicate Elsewhere(s: Step, tid: nat) {
    (s.Finish? || s.Lose? || s.Spawn? || s.Drain?) ==> s.tid != tid
  }

  lemma StillStep(w: World, s: Step, tid: nat)
    requires tid in w.threads && Elsewhere(s, tid)
    ensures tid in Next(w, s).threads && Next(w, s).threads[tid] == w.threads[tid]
  {
    if s.Execute? { var (st, reply) := Begin(w.st, s.q, s.env); }
  }

  lemma {:induction false} StillRun(w: World, steps: seq<Step>, tid: nat)
    requires tid in w.threads && Still(steps, tid)
    ensures tid in Run(w, steps).threads && Run(w, steps).threads[tid] == w.threads[tid]
    decreases |steps|
  {
    if steps != [] {
      StillStep(w, steps[0], tid);
      StillRun(Next(w, steps[0]), steps[1..], tid);
    }
  }

  /** From its acceptance until its thread moves on, through any other threads' steps, the slot of a
      batch is its context's, and covers every handle the batch's relocations name: by a scratch
      buffer, or by an object it holds. */
  lemma CoveredUntilDone(before: seq<Step>, tid: nat, q: Request, env: Env, steps: seq<Step>)
    requires Enabled(Run(INIT, before), Execute(tid, q, env)) && Begin(Run(INIT, before).st, q, env).1.Accepted?
    requires Still(steps, tid)
    ensures var w := Run(INIT, before);
            var w' := Run(Next(w, Execute(tid, q, env)), steps);
            var slot := Begin(w.st, q, env).1.slot;
            Parse(q.side).Some? && slot < |w'.st.contexts| && w'.st.contexts[slot].io == q.io &&
                w'.st.contexts[slot].busy &&
            forall b <- Parse(q.side).value.blocks :: b.Relocs? ==> forall r <- b.records ::
              r.head / 2 % 8 != 7 &&
              Covered(w'.st.contexts[slot], w.st.resources, q.shared, r.handles % 0x1_0000, env) &&
              (r.head / 2 % 8 in {2, 4, 5, 6} ==>
                 Covered(w'.st.contexts[slot], w.st.resources, q.shared, r.handles / 0x1_0000, env))
  {
    InitHolds();
    RunKeeps(INIT, before);
    var w := Run(INIT, before);
    CoveredFrom(w, tid, q, env, steps);
    var w', slot := Run(Next(w, Execute(tid, q, env)), steps), Begin(w.st, q, env).1.slot;
    CoveredOnWords(w'.st.contexts[slot], w.st.resources, q.shared, Parse(q.side).value.blocks, env);
  }

  lemma CoveredFrom(w: World, tid: nat, q: Request, env: Env, steps: seq<Step>)
    requires Inv(w) && Enabled(w, Execute(tid, q, env)) && Begin(w.st, q, env).1.Accepted? && Still(steps, tid)
    ensures var w' := Run(Next(w, Execute(tid, q, env)), steps);
            var slot := Begin(w.st, q, env).1.slot;
            Parse(q.side).Some? && slot < |w'.st.contexts| && w'.st.contexts[slot].io == q.io &&
                w'.st.contexts[slot].busy &&
            forall b <- Parse(q.side).value.blocks ::
                BlockCovered(w'.st.contexts[slot], w.st.resources, q.shared, b, env)
  {
    var w1 := Next(w, Execute(tid, q, env));
    var slot := Begin(w.st, q, env).1.slot;
    StepKeeps(w, Execute(tid, q, env));
    RunKeeps(w1, steps);
    var p := AcceptedThread(w, tid, q, env);
    StillRun(w1, steps, tid);
    var w' := Run(w1, steps);
    assert ThreadOk(w'.threads[tid], w'.st.contexts) && ThreadOk(w1.threads[tid], w1.st.contexts);
    AcceptedCovers(w.st, q, env);
    SameCovers(Begin(w.st, q, env).0.contexts[slot], w'.st.contexts[slot], w.st.resources, q.shared,
        Parse(q.side).value.blocks, env);
  }

  lemma AcceptedThread(w: World, tid: nat, q: Request, env: Env) returns (p: Pc)
    requires Inv(w) && Enabled(w, Execute(tid, q, env)) && Begin(w.st, q, env).1.Accepted?
    ensures var (st, reply) := Begin(w.st, q, env);
            var w1 := Next(w, Execute(tid, q, env));
            reply.slot < |st.contexts| && tid in w1.threads && w1.threads[tid] == p &&
            p == Pc(reply.slot, q.io, Submitted, st.contexts[reply.slot].held, st.contexts[reply.slot].scratch)
  {
    if !(WellFormed(q) && Free(w.st.contexts, q.io)) { NotBegun(w, q, env); }
    var i, st1, l := Begun(w, q, env);
    var c := l.c.(activity := true);
    ExecutedAccepted(w, tid, q, env, i, Install(st1, i, l.(c := c)), c);
    p := Pc(i, q.io, Submitted, c.held, c.scratch);
  }

  lemma SameCovers(c: Context, c': Context, rs: seq<Resource>, shared: nat, bs: seq<Block>, env: Env)
    requires c.held == c'.held && c.scratch == c'.scratch
    requires forall b <- bs :: BlockCovered(c, rs, shared, b, env)
    ensures forall b <- bs :: BlockCovered(c', rs, shared, b, env)
  {
    forall b | b in bs ensures BlockCovered(c', rs, shared, b, env) {
      if b.Relocs? {
        forall r | r in b.records ensures RecordCovered(c', rs, shared, r, env) {
          assert RecordCovered(c, rs, shared, r, env);
          CoveredStays(c, c', rs, shared, Low(r), env);
          if TwoHandles(r) { CoveredStays(c, c', rs, shared, High(r), env); }
        }
      }
    }
  }

  // ---- refused batches ----

  /** No hold, charge, reference or scratch buffer more or less; at most this context has an idle slot now. */
  predicate OnlyOccupies(st: State, st': State, io: nat) {
    st'.reserved == st.reserved && st'.resources == st.resources && |st'.contexts| == |st.contexts| &&
    st'.native.objects == st.native.objects && st'.native.uses == st.native.uses &&
    st'.native.surfaces == st.native.surfaces && st'.native.scratch == st.native.scratch &&
    forall k :: 0 <= k < |st.contexts| ==>
      st'.contexts[k] == st.contexts[k] || (st.contexts[k] == EMPTY && st'.contexts[k] == EMPTY.(io := io))
  }

  /** A batch that is not accepted leaves no hold, no charge and no scratch: at most its context now
      has an idle slot, and the deferred table was swept once. */
  lemma RefusedLeavesNothing(steps: seq<Step>, q: Request, env: Env)
    requires !Begin(Run(INIT, steps).st, q, env).1.Accepted?
    ensures OnlyOccupies(Run(INIT, steps).st, Begin(Run(INIT, steps).st, q, env).0, q.io)
  {
    InitHolds();
    RunKeeps(INIT, steps);
    RefusedFrom(Run(INIT, steps), q, env);
  }

  lemma RefusedFrom(w: World, q: Request, env: Env)
    requires Inv(w) && !Begin(w.st, q, env).1.Accepted?
    ensures OnlyOccupies(w.st, Begin(w.st, q, env).0, q.io)
  {
    if WellFormed(q) && Free(w.st.contexts, q.io) {
      var i, st1, l := Begun(w, q, env);
      Occupied(w.st, i, q.io);
      SweptOccupies(w.st, st1, q.io, env);
    } else {
      NotBegun(w, q, env);
    }
  }

  lemma Occupied(st: State, i: nat, io: nat)
    requires i < |st.contexts| && (st.contexts[i] == EMPTY || st.contexts[i].io == io)
    ensures OnlyOccupies(st, Occupy(st, i, io), io)
  {
  }

  lemma SweptOccupies(st: State, st1: State, io: nat, env: Env)
    requires OnlyOccupies(st, st1, io)
    ensures OnlyOccupies(st, SweptOnly(st1, env), io)
  {
  }

  // ---- which ranges a hold protects ----

  predicate Knows(held: seq<Hold>, r: Resource) {
    exists k :: 0 <= k < |held| && held[k].obj == r.obj && held[k].address == r.address && held[k].bytes == r.bytes
  }

  /** A relocation of this sideband names this handle: in the low half of its second word, or in the
      high half where its operation, bits 1 to 3 of the first, is 2, 4, 5 or 6. */
  predicate Names(side: seq<word>, handle: word) {
    Parse(side).Some? &&
    exists b, r :: b in Parse(side).value.blocks && b.Relocs? && r in b.records &&
                   (handle == r.handles % 0x1_0000 ||
                    (r.head / 2 % 8 in {2, 4, 5, 6} && handle == r.handles / 0x1_0000))
  }

  /** A relocation names this catalogued resource, by a handle none of the batch's scratch buffers has. */
  predicate NamesResource(st: State, q: Request, handle: word, r: Resource) {
    Names(q.side, handle) && !ScratchHas(q.scratch, handle) && Match(st.resources, q.shared, handle) == Some(r)
  }

  /** What an accepted batch names, its slot holds. */
  lemma NamedIsHeld(st: State, q: Request, env: Env, handle: word, r: Resource)
    requires Begin(st, q, env).1.Accepted? && NamesResource(st, q, handle, r)
    ensures var (st', reply) := Begin(st, q, env);
            reply.slot < |st'.contexts| && HoldsObject(st'.contexts[reply.slot].held, r.obj)
  {
    AcceptedCovers(st, q, env);
    var c := Begin(st, q, env).0.contexts[Begin(st, q, env).1.slot];
    var b, rec :| b in Parse(q.side).value.blocks && b.Relocs? && rec in b.records &&
                  (handle == rec.handles % 0x1_0000 ||
                   (rec.head / 2 % 8 in {2, 4, 5, 6} && handle == rec.handles / 0x1_0000));
    assert BlockCovered(c, st.resources, q.shared, b, env) && RecordCovered(c, st.resources, q.shared, rec, env);
    assert Covered(c, st.resources, q.shared, handle, env);
  }

  /** The hold of a data buffer has no range. */
  predicate AllBlank(held: seq<Hold>) {
    forall k :: 0 <= k < |held| ==> held[k].address == 0 && held[k].bytes == 0
  }

  lemma {:induction false} BuffersBlank(l: Local, todo: seq<nat>, env: Env)
    requires AllBlank(l.c.held) && AddBuffers(l, todo, env).ok
    ensures AllBlank(AddBuffers(l, todo, env).c.held)
    ensures forall b <- todo :: b != 0 ==> HoldsObject(AddBuffers(l, todo, env).c.held, b)
    decreases |todo|
  {
    if todo != [] {
      var first := todo[0];
      var l1 := if first == 0 then l else AddHold(l, first, None, env);
      BuffersBlank(l1, todo[1..], env);
      if first != 0 { BufferHeld(l, first, l1, AddBuffers(l1, todo[1..], env), env); }
      assert forall b <- todo :: b == first || b in todo[1..];
    }
  }

  lemma BufferHeld(l: Local, b: nat, l1: Local, l2: Local, env: Env)
    requires l1 == AddHold(l, b, None, env) && l1.ok && l1.c.held <= l2.c.held
    ensures HoldsObject(l2.c.held, b)
  {
    if !HoldsObject(l.c.held, b) { assert l1.c.held[|l.c.held|].obj == b; }
    var k :| 0 <= k < |l1.c.held| && l1.c.held[k].obj == b;
    assert l2.c.held[k].obj == b;
  }

  /** The hold of this object has no range. */
  predicate BlankFor(held: seq<Hold>, obj: nat) {
    forall k :: 0 <= k < |held| && held[k].obj == obj ==> held[k].bytes == 0
  }

  /** A data buffer is held without a range, whatever the sideband names after it. */
  lemma BufferIsBlank(st: State, i: nat, q: Request, env: Env, l: Local, r: Resource)
    requires i < |st.contexts| && st.contexts[i] == EMPTY.(io := q.io) && l == Preflight(st, i, q, env) && l.ok
    requires HoldsOk(l.c.held) && r.obj in q.buffers && r.obj != 0 && r.bytes != 0
    ensures !Knows(l.c.held, r) && BlankFor(l.c.held, r.obj)
  {
    PreflightStarts(st, i, q, env);
    var l0 := Local(Starting(q.io, q.scratch), st.reserved + Bytes(q.scratch), st.native, |q.buffers| <= 16);
    var l1 := AddBuffers(l0, q.buffers, env);
    assert l1.c.held <= l.c.held;
    BuffersBlank(l0, q.buffers, env);
    var k :| 0 <= k < |l1.c.held| && l1.c.held[k].obj == r.obj;
    assert l.c.held[k] == l1.c.held[k];
  }

  /** An accepted batch knows the range of a catalogued object it holds if and only if the object is
      not one of its data buffers. */
  lemma HeldRangeExactly(w: World, q: Request, env: Env, r: Resource)
    requires Inv(w) && Begin(w.st, q, env).1.Accepted? && r in w.st.resources && r.obj != 0 && r.bytes != 0
    requires var (st, reply) := Begin(w.st, q, env);
             reply.slot < |st.contexts| && HoldsObject(st.contexts[reply.slot].held, r.obj)
    ensures var held := Begin(w.st, q, env).0.contexts[Begin(w.st, q, env).1.slot].held;
            (Knows(held, r) <==> r.obj !in q.buffers) && (r.obj in q.buffers ==> BlankFor(held, r.obj))
  {
    var i := SlotFor(w.st.contexts, q.io);
    var st1 := Occupy(w.st, i, q.io);
    var l := Preflight(st1, i, q, env);
    BeginIs(w, q, env, i, st1, l);
    SlotIdle(w, q);
    if r.obj in q.buffers {
      PreflightBuilds(st1, i, q, env, l);
      BufferIsBlank(st1, i, q, env, l, r);
    } else {
      GatherTraced(st1, i, q, env, l);
      TracedKnows(l.c.held, q.buffers, w.st.resources, r);
    }
  }

  lemma TracedKnows(held: seq<Hold>, buffers: seq<nat>, rs: seq<Resource>, r: Resource)
    requires AllTraced(held, buffers, rs) && HoldsObject(held, r.obj)
    requires CatalogueOk(rs) && r in rs && r.obj != 0 && r.obj !in buffers
    ensures Knows(held, r)
  {
    var k :| 0 <= k < |held| && held[k].obj == r.obj;
    assert Traced(held[k], buffers, rs);
    OneResource(rs, r, held[k]);
  }

  /** An accepted batch knows the range of a catalogued resource its relocations name if and only if
      the resource is not also one of its data buffers. Both sides can be told before the call. */
  lemma RangeRecordedExactly(w: World, q: Request, env: Env, handle: word, r: Resource)
    requires Inv(w) && Begin(w.st, q, env).1.Accepted? && NamesResource(w.st, q, handle, r) && r.bytes != 0
    ensures Begin(w.st, q, env).1.slot < |Begin(w.st, q, env).0.contexts|
    ensures var held := Begin(w.st, q, env).0.contexts[Begin(w.st, q, env).1.slot].held;
            (Knows(held, r) <==> r.obj !in q.buffers) && (r.obj in q.buffers ==> BlankFor(held, r.obj))
  {
    NamedIsHeld(w.st, q, env, handle, r);
    HeldRangeExactly(w, q, env, r);
  }

  /** Where a hold comes from: a data buffer, or the catalogue, with its range. */
  predicate Traced(h: Hold, buffers: seq<nat>, rs: seq<Resource>) {
    h.obj in buffers || exists r :: r in rs && r.obj == h.obj && h == NewHold(r.obj, Some(r))
  }

  predicate AllTraced(held: seq<Hold>, buffers: seq<nat>, rs: seq<Resource>) {
    forall k :: 0 <= k < |held| ==> Traced(held[k], buffers, rs)
  }

  lemma {:induction false} TracedBuffers(l: Local, todo: seq<nat>, buffers: seq<nat>, rs: seq<Resource>, env: Env)
    requires AllTraced(l.c.held, buffers, rs) && forall b <- todo :: b in buffers
    ensures AllTraced(AddBuffers(l, todo, env).c.held, buffers, rs)
    decreases |todo|
  {
    if todo != [] && l.ok {
      var l1 := if todo[0] == 0 then l else AddHold(l, todo[0], None, env);
      assert todo[0] in todo && AllTraced(l1.c.held, buffers, rs);
      TracedBuffers(l1, todo[1..], buffers, rs, env);
    }
  }

  lemma TracedHandle(l: Local, buffers: seq<nat>, rs: seq<Resource>, shared: nat, handle: word, env: Env)
    requires AllTraced(l.c.held, buffers, rs)
    ensures AllTraced(AddHandle(l, rs, shared, handle, env).c.held, buffers, rs)
  {
    var m := Match(rs, shared, handle);
    if m.Some? {
      assert Traced(NewHold(m.value.obj, m), buffers, rs);
    }
  }

  lemma {:induction false} TracedRecords(l: Local, recs: seq<Record>, buffers: seq<nat>, rs: seq<Resource>,
      shared: nat, env: Env)
    requires AllTraced(l.c.held, buffers, rs)
    ensures AllTraced(AddRecords(l, rs, shared, recs, env).c.held, buffers, rs)
    decreases |recs|
  {
    if recs != [] && l.ok {
      TracedHandle(l, buffers, rs, shared, Low(recs[0]), env);
      TracedHandle(AddHandle(l, rs, shared, Low(recs[0]), env), buffers, rs, shared, High(recs[0]), env);
      TracedRecords(AddRecord(l, rs, shared, recs[0], env), recs[1..], buffers, rs, shared, env);
    }
  }

  lemma {:induction false} TracedBlocks(l: Local, bs: seq<Block>, buffers: seq<nat>, rs: seq<Resource>, shared: nat,
                                        env: Env)
    requires AllTraced(l.c.held, buffers, rs)
    ensures AllTraced(AddBlocks(l, rs, shared, bs, env).c.held, buffers, rs)
    decreases |bs|
  {
    if bs != [] && l.ok {
      if bs[0].Relocs? { TracedRecords(l, bs[0].records, buffers, rs, shared, env); }
      TracedBlocks(if bs[0].Relocs? then AddRecords(l, rs, shared, bs[0].records, env)
          else l, bs[1..], buffers, rs, shared, env);
    }
  }

  /** A batch's catalogued resources, named and not among its data buffers, are protected in every
      run from its acceptance until its fence passes or its context is drained: deallocating any part
      of one is put off. */
  lemma HeldRangesAreProtected(before: seq<Step>, tid: nat, q: Request, env: Env, steps: seq<Step>, handle: word,
                               r: Resource,
                               d: Deferred)
    requires var w := Run(INIT, before);
             Enabled(w, Execute(tid, q, env)) && Begin(w.st, q, env).1.Accepted? &&
             NamesResource(w.st, q, handle, r) && r.obj !in q.buffers &&
             Unconfirmed(Next(w, Execute(tid, q, env)), steps, Begin(w.st, q, env).1.slot)
    requires Overlaps(d.address, d.bytes, r.address, r.bytes)
    ensures VmDeallocate(Run(Next(Run(INIT, before), Execute(tid, q, env)), steps).st, true, d).1 != Forwarded
  {
    InitHolds();
    RunKeeps(INIT, before);
    ProtectedFrom(Run(INIT, before), tid, q, env, steps, handle, r, d);
  }

  lemma ProtectedFrom(w: World, tid: nat, q: Request, env: Env, steps: seq<Step>, handle: word, r: Resource,
                      d: Deferred)
    requires Inv(w) && Enabled(w, Execute(tid, q, env)) && Begin(w.st, q, env).1.Accepted?
    requires NamesResource(w.st, q, handle, r) && r.obj !in q.buffers
    requires Unconfirmed(Next(w, Execute(tid, q, env)), steps, Begin(w.st, q, env).1.slot)
    requires Overlaps(d.address, d.bytes, r.address, r.bytes)
    ensures VmDeallocate(Run(Next(w, Execute(tid, q, env)), steps).st, true, d).1 != Forwarded
  {
    var w1, i := Next(w, Execute(tid, q, env)), Begin(w.st, q, env).1.slot;
    StepKeeps(w, Execute(tid, q, env));
    RangeRecordedExactly(w, q, env, handle, r);
    var p := AcceptedThread(w, tid, q, env);
    HeldThrough(w1, steps, i);
    KnownProtects(Run(w1, steps).st, i, r, d);
  }

  /** No hold but those of this object in this slot meets the range. */
  predicate OthersAway(cs: seq<Context>, i: nat, obj: nat, d: Deferred) {
    forall j, k :: 0 <= j < |cs| && 0 <= k < |cs[j].held| && HoldMeets(cs[j].held[k], d) ==>
      j == i && cs[j].held[k].obj == obj
  }

  /** And not protected otherwise: where no other hold meets its range, the deallocation of a named
      resource goes to the kernel, in the middle of the batch, if and only if the resource is also one
      of the data buffers. */
  lemma ForwardedMidBatchExactly(before: seq<Step>, tid: nat, q: Request, env: Env, steps: seq<Step>, handle: word,
                                 r: Resource)
    requires var w := Run(INIT, before);
             Enabled(w, Execute(tid, q, env)) && Begin(w.st, q, env).1.Accepted? && NamesResource(w.st, q, handle, r) &&
             Unconfirmed(Next(w, Execute(tid, q, env)), steps, Begin(w.st, q, env).1.slot)
    requires r.bytes != 0 && r.address + r.bytes < LIMIT
    requires var w := Run(INIT, before);
             OthersAway(Run(Next(w, Execute(tid, q, env)), steps).st.contexts, Begin(w.st, q, env).1.slot, r.obj,
                        Deferred(r.address, r.bytes))
    ensures var st := Run(Next(Run(INIT, before), Execute(tid, q, env)), steps).st;
            VmDeallocate(st, true, Deferred(r.address, r.bytes)).1 == Forwarded <==> r.obj in q.buffers
  {
    InitHolds();
    RunKeeps(INIT, before);
    var w, d := Run(INIT, before), Deferred(r.address, r.bytes);
    if r.obj in q.buffers {
      var w1, i := Next(w, Execute(tid, q, env)), Begin(w.st, q, env).1.slot;
      StepKeeps(w, Execute(tid, q, env));
      RangeRecordedExactly(w, q, env, handle, r);
      var p := AcceptedThread(w, tid, q, env);
      NamedIsHeld(w.st, q, env, handle, r);
      HeldThrough(w1, steps, i);
      BlankAway(Run(w1, steps).st, i, r.obj, d);
    } else {
      ProtectedFrom(w, tid, q, env, steps, handle, r, d);
    }
  }

  lemma BlankAway(st: State, i: nat, obj: nat, d: Deferred)
    requires i < |st.contexts| && BlankFor(st.contexts[i].held, obj) && OthersAway(st.contexts, i, obj, d)
    ensures VmDeallocate(st, true, d).1 == Forwarded
  {
  }

  lemma KnownProtects(st: State, i: nat, r: Resource, d: Deferred)
    requires i < |st.contexts| && Knows(st.contexts[i].held, r) && Overlaps(d.address, d.bytes, r.address, r.bytes)
    ensures VmDeallocate(st, true, d).1 != Forwarded
  {
    var k :| 0 <= k < |st.contexts[i].held| && st.contexts[i].held[k].obj == r.obj &&
             st.contexts[i].held[k].address == r.address && st.contexts[i].held[k].bytes == r.bytes;
    assert HoldMeets(st.contexts[i].held[k], d);
  }

  lemma GatherTraced(st: State, i: nat, q: Request, env: Env, l: Local)
    requires i < |st.contexts| && st.contexts[i] == EMPTY.(io := q.io) && l == Preflight(st, i, q, env)
    ensures AllTraced(l.c.held, q.buffers, st.resources)
  {
    PreflightStarts(st, i, q, env);
    var l0 := Local(Starting(q.io, q.scratch), st.reserved + Bytes(q.scratch), st.native, |q.buffers| <= 16);
    TracedBuffers(l0, q.buffers, q.buffers, st.resources, env);
    var t := Parse(q.side);
    if t.Some? { TracedBlocks(AddBuffers(l0, q.buffers, env), t.value.blocks, q.buffers, st.resources, q.shared, env); }
  }

  lemma OneResource(rs: seq<Resource>, r: Resource, h: Hold)
    requires CatalogueOk(rs) && r in rs && r.obj != 0 && h.obj == r.obj
    requires exists x :: x in rs && x.obj == h.obj && h == NewHold(x.obj, Some(x))
    ensures h.address == r.address && h.bytes == r.bytes
  {
    var x :| x in rs && x.obj == h.obj && h == NewHold(x.obj, Some(x));
    var a :| 0 <= a < |rs| && rs[a] == r;
    var b :| 0 <= b < |rs| && rs[b] == x;
    var objA, objB := rs[a].obj, rs[b].obj;
    assert a < b ==> objA != objB;
    assert b < a ==> objB != objA;
  }
}
