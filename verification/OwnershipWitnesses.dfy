/** Concrete runs in which a promise fails, each from the start: a transaction ended too early, a held
    range that reaches the top of the address space, and a held data buffer, both let go. */
module OwnershipWitnesses {
  import opened Words
  import opened Sideband
  import opened Ownership
  import opened OwnershipBooks
  import opened OwnershipRuns
  import opened OwnershipSlots
  import opened OwnershipKeeps
  import opened OwnershipSafety
  import opened OwnershipSlotLife
  import opened OwnershipBatches

  // ---- the early end of a transaction ----

  const SOME_ENV := Env(_ => 0, _ => 0, _ => 0, _ => true)
  const EMPTY_BATCH := Request(1, 1, true, [], [0, 0, 0, 0, TERMINAL, 0], [])

  /** A batch with no buffers, no scratch and no relocations is lost, no recovery thread starts, and
      the owner lets go: the transaction is ended although completion was never confirmed. */
  lemma EarlyEnd()
    ensures var steps := [Execute(0, EMPTY_BATCH, SOME_ENV), Lose(0, -1, 0, 0), Spawn(0, false)];
            EndsUnconfirmed(Run(INIT, steps), ReleaseContext(1), 0) && Run(INIT, steps).owedEnds == 0 &&
            Next(Run(INIT, steps), ReleaseContext(1)).owedEnds == 1
  {
    var w1 := FirstAccepted();
    var steps := [Execute(0, EMPTY_BATCH, SOME_ENV), Lose(0, -1, 0, 0), Spawn(0, false)];
    InitHolds();
    RunThree(INIT, steps[0], steps[1], steps[2]);
    RunKeeps(INIT, steps);
    var w3 := LostUnmanned(w1);
    ReleasedEarly(w3);
  }

  lemma LostUnmanned(w: World) returns (w3: World)
    requires |w.st.contexts| == CONTEXTS && w.st.contexts[0] == EMPTY.(io := 1, busy := true, activity := true)
    requires 0 in w.threads && w.threads[0] == Pc(0, 1, Submitted, [], []) && w.owedEnds == 0
    ensures w3 == Next(Next(w, Lose(0, -1, 0, 0)), Spawn(0, false))
    ensures w3.st.contexts == w.st.contexts[0 := EMPTY.(io := 1, failed := true, error := -1, activity := true)]
    ensures 0 in w3.unconfirmed && w3.owedEnds == 0
  {
    var w2 := Next(w, Lose(0, -1, 0, 0));
    assert FirstError(-1, 0, 0) == -1;
    assert w2.st.contexts[0] == EMPTY.(io := 1, failed := true, error := -1, recovering := true, activity := true);
    assert w2.threads[0] == Pc(0, 1, Spawning, [], []);
    w3 := Next(w2, Spawn(0, false));
    Twice(w.st.contexts, 0, w2.st.contexts[0], w3.st.contexts[0]);
  }

  lemma ReleasedEarly(w: World)
    requires Inv(w) && |w.st.contexts| == CONTEXTS && 0 in w.unconfirmed && w.owedEnds == 0
    requires w.st.contexts[0] == EMPTY.(io := 1, failed := true, error := -1, activity := true)
    ensures EndsUnconfirmed(w, ReleaseContext(1), 0) && Next(w, ReleaseContext(1)).owedEnds == 1
  {
    assert Find(w.st.contexts, 1) == 0;
    EndsStep(w, ReleaseContext(1), 0);
    NextLet(w, 1);
    LetIs(w, 1);
  }

  lemma RunThree(w: World, a: Step, b: Step, c: Step)
    ensures Run(w, [a, b, c]) == Next(Next(Next(w, a), b), c)
  {
    assert [a, b, c][1..] == [b, c] && [b, c][1..] == [c] && [c][1..] == [];
    var w1, w2 := Next(w, a), Next(Next(w, a), b);
    assert Run(w, [a, b, c]) == Run(w1, [b, c]);
    assert Run(w1, [b, c]) == Run(w2, [c]);
    assert Run(w2, [c]) == Run(Next(w2, c), []);
  }

  lemma FirstAccepted() returns (w: World)
    ensures w == Next(INIT, Execute(0, EMPTY_BATCH, SOME_ENV))
    ensures |w.st.contexts| == CONTEXTS && w.st.contexts[0] == EMPTY.(io := 1, busy := true, activity := true)
    ensures 0 in w.threads && w.threads[0] == Pc(0, 1, Submitted, [], []) && w.owedEnds == 0
  {
    var q, env := EMPTY_BATCH, SOME_ENV;
    w := Next(INIT, Execute(0, q, env));
    FirstBegin();
    InitHolds();
    assert multiset(q.scratch) <= INIT.loose;
    var p := AcceptedThread(INIT, 0, q, env);
    assert p.slot == 0;
    assert p.held == [];
    assert p.scratch == [];
    assert p == Pc(0, 1, Submitted, [], []);
    assert INIT.owedEnds == 0;
  }

  lemma FirstBegin()
    ensures var (st, reply) := Begin(INIT.st, EMPTY_BATCH, SOME_ENV);
            reply == Accepted(0) && |st.contexts| == CONTEXTS &&
                st.contexts[0] == EMPTY.(io := 1, busy := true, activity := true)
  {
    var q, env, cs := EMPTY_BATCH, SOME_ENV, INIT.st.contexts;
    assert Find(cs, 1) == |cs| && Find(cs, 0) == 0;
    assert q.side[4..] == [TERMINAL, 0];
    assert ParseBlocks([TERMINAL, 0]) == Some(([], 0));
    var st1 := Occupy(INIT.st, 0, 1);
    var l := Preflight(st1, 0, q, env);
    PreflightStarts(st1, 0, q, env);
    assert l == Local(Starting(1, []), 0, st1.native, true);
    InitHolds();
    BeginIs(INIT, q, env, 0, st1, l);
  }

  // ---- a catalogued resource ----

  const AREA := 4096
  const INPUT := Input(0x80, AREA, AREA, AREA, 0)
  const CREATE := CreateResource(7, 1, 5, Some(INPUT))
  const MEMORY := Resource(7, 1, 5, AREA, AREA, 0, true)
  const NAMING := Table([0, 0, 0, 0], [Relocs(0, 0, [Record(0x11, 5, 0, 0, 0)], 0)], 0)

  /** A batch that names the resource by its handle, with these data buffers. */
  function Naming(buffers: seq<nat>): (q: Request)
    ensures Parse(q.side) == Some(NAMING) && WellFormed(q)
  {
    ParseEncode(NAMING);
    assert |Encode(NAMING)| >= 6;
    Request(1, 1, true, [], Encode(NAMING), buffers)
  }

  lemma {:induction false} NoObject(rs: seq<Resource>, obj: nat)
    requires obj != 0 && forall k :: 0 <= k < |rs| ==> rs[k] == NO_RESOURCE
    ensures FirstObject(rs, obj) == |rs|
  {
    if rs != [] { NoObject(rs[1..], obj); }
  }

  lemma Created() returns (w: World)
    ensures Enabled(INIT, CREATE) && w == Next(INIT, CREATE) && Inv(w)
    ensures w.st == INIT.st.(resources := INIT.st.resources[0 := MEMORY]) && w.threads == map[] && w.loose == multiset{}
  {
    w := Next(INIT, CREATE);
    NoObject(INIT.st.resources, 7);
    InitHolds();
    StepKeeps(INIT, CREATE);
    assert FirstEmpty(INIT.st.resources) == 0;
    assert Describe(7, 1, 5, Some(INPUT)) == MEMORY;
    assert multiset{} + One(0) == One(0);
  }

  /** What the batch holds. */
  function TheHold(buffers: seq<nat>): Hold {
    if buffers == [] then Hold(7, AREA, AREA, 0) else Hold(7, 0, 0, 0)
  }

  lemma BufferTakes(l0: Local, buffers: seq<nat>) returns (l1: Local)
    requires buffers == [] || buffers == [7]
    requires l0.ok && l0.c.held == [] && l0.reserved == 0 && l0.c.scratch == []
    ensures l1 == AddBuffers(l0, buffers, SOME_ENV) && l1.ok && l1.reserved == 0
    ensures l1.c == l0.c.(held := l1.c.held, charged := l1.c.charged)
    ensures l1.c.held == if buffers == [] then [] else [Hold(7, 0, 0, 0)]
    ensures buffers == [7] ==> HoldsObject(l1.c.held, 7)
  {
    l1 := AddBuffers(l0, buffers, SOME_ENV);
    if buffers == [7] {
      var h := AddHold(l0, 7, None, SOME_ENV);
      assert buffers[0] == 7 && buffers[1..] == [];
      assert AddBuffers(h, [], SOME_ENV) == h;
      assert !HoldsObject(l0.c.held, 7) && Charge(7, None, SOME_ENV) == 0;
      assert h == Take(l0, Hold(7, 0, 0, 0), 0);
      assert l1.c.held[0].obj == 7;
    }
  }

  lemma NamingTakes(st: State, buffers: seq<nat>) returns (l: Local)
    requires buffers == [] || buffers == [7]
    requires 0 < |st.contexts| && st.contexts[0] == EMPTY.(io := 1) && st.reserved == 0
    requires st.resources != [] && st.resources[0] == MEMORY
    ensures l == Preflight(st, 0, Naming(buffers), SOME_ENV) && l.ok && l.c.held == [TheHold(buffers)]
    ensures l.c == EMPTY.(io := 1, busy := true, held := l.c.held, charged := l.c.charged)
  {
    var q, env := Naming(buffers), SOME_ENV;
    l := Preflight(st, 0, q, env);
    PreflightStarts(st, 0, q, env);
    var l0 := Local(Starting(1, []), 0, st.native, |buffers| <= 16);
    var l1 := BufferTakes(l0, buffers);
    RecordTakes(l1, st.resources, buffers);
  }

  /** The one record of the sideband: the resource is held, from the data buffers or from here on. */
  lemma RecordTakes(l1: Local, rs: seq<Resource>, buffers: seq<nat>)
    requires l1.ok && l1.reserved == 0 && l1.c.scratch == [] && rs != [] && rs[0] == MEMORY
    requires if buffers == [] then l1.c.held == [] else l1.c.held == [Hold(7, 0, 0, 0)]
    ensures AddBlocks(l1, rs, 1, NAMING.blocks, SOME_ENV) == AddHold(l1, 7, Some(MEMORY), SOME_ENV)
  {
    var rec, env := Record(0x11, 5, 0, 0, 0), SOME_ENV;
    assert Match(rs, 1, 5) == Some(MEMORY);
    assert AddHandle(l1, rs, 1, 5, env) == AddHold(l1, 7, Some(MEMORY), env);
    var l2 := AddRecord(l1, rs, 1, rec, env);
    assert l2 == AddHandle(l1, rs, 1, 5, env);
    assert [rec][1..] == [] && NAMING.blocks[1..] == [];
    assert AddRecords(l1, rs, 1, [rec], env) == l2;
  }

  /** The batch is accepted into the first slot. */
  lemma NamingAccepted(buffers: seq<nat>) returns (w: World)
    requires buffers == [] || buffers == [7]
    ensures w == Next(INIT, CREATE) && Inv(w) && Enabled(w, Execute(0, Naming(buffers), SOME_ENV))
    ensures var (st, reply) := Begin(w.st, Naming(buffers), SOME_ENV);
            reply == Accepted(0) && |st.contexts| == CONTEXTS && st.contexts[0].held == [TheHold(buffers)] &&
            forall k :: 0 < k < CONTEXTS ==> st.contexts[k] == EMPTY
  {
    w := Created();
    var q, env := Naming(buffers), SOME_ENV;
    FirstSlot(w.st, 1);
    assert multiset(q.scratch) <= w.loose;
    var i, st1, l := Begun(w, q, env);
    var taken := NamingTakes(st1, buffers);
  }

  /** With all slots empty the first one is taken. */
  lemma FirstSlot(st: State, io: nat)
    requires |st.contexts| == CONTEXTS && io != 0 && forall k :: 0 <= k < CONTEXTS ==> st.contexts[k] == EMPTY
    ensures SlotFor(st.contexts, io) == 0 && Free(st.contexts, io)
    ensures Occupy(st, 0, io).contexts == st.contexts[0 := EMPTY.(io := io)]
    ensures Occupy(st, 0, io).resources == st.resources && Occupy(st, 0, io).reserved == st.reserved
  {
    assert Find(st.contexts, io) == |st.contexts| && Find(st.contexts, 0) == 0;
  }

  /** The world after it. */
  lemma Executing(buffers: seq<nat>) returns (w: World)
    requires buffers == [] || buffers == [7]
    ensures w == Run(INIT, [CREATE, Execute(0, Naming(buffers), SOME_ENV)])
    ensures |w.st.contexts| == CONTEXTS && w.st.contexts[0].held == [TheHold(buffers)]
    ensures forall k :: 0 < k < CONTEXTS ==> w.st.contexts[k] == EMPTY
  {
    var s := Execute(0, Naming(buffers), SOME_ENV);
    var w1 := NamingAccepted(buffers);
    w := Next(w1, s);
    RunPair(INIT, CREATE, s);
  }

  lemma RunPair(w: World, a: Step, b: Step)
    ensures Run(w, [a, b]) == Next(Next(w, a), b)
  {
    assert [a, b][1..] == [b] && [b][1..] == [];
    assert Run(Next(w, a), [b]) == Run(Next(Next(w, a), b), []);
  }

  /** A held range of our own task, deallocated up to the very top of the address space, goes to the
      kernel in the middle of the batch. */
  lemma TopOfSpaceForwarded()
    ensures var w := Run(INIT, [CREATE, Execute(0, Naming([]), SOME_ENV)]);
            var d := Deferred(AREA, LIMIT - AREA);
            InUse(w.st.contexts, d) && VmDeallocate(w.st, true, d).1 == Forwarded
  {
    var w := Executing([]);
    var d := Deferred(AREA, LIMIT - AREA);
    var h := w.st.contexts[0].held[0];
    assert Within(AREA, d.address, d.bytes) && Within(AREA, h.address, h.bytes);
    assert HoldUses(h, d);
    DeallocationExactly([CREATE, Execute(0, Naming([]), SOME_ENV)], d);
  }

  /** The same batch with the resource among its data buffers: its own range is let go while it is held
      and named. */
  lemma DataBufferForwarded()
    ensures var w := Next(INIT, CREATE);
            Begin(w.st, Naming([7]), SOME_ENV).1.Accepted? && NamesResource(w.st, Naming([7]), 5, MEMORY)
    ensures var w := Run(INIT, [CREATE, Execute(0, Naming([7]), SOME_ENV)]);
            0 < |w.st.contexts| && HoldsObject(w.st.contexts[0].held, 7) &&
            VmDeallocate(w.st, true, Deferred(AREA, AREA)).1 == Forwarded
  {
    var w1 := NamingAccepted([7]);
    var c := Created();
    MemoryNamed(w1.st, Naming([7]));
    var w := Executing([7]);
    BlankForwarded(w.st);
  }

  lemma BlankForwarded(st: State)
    requires |st.contexts| == CONTEXTS && st.contexts[0].held == [TheHold([7])]
    requires forall k :: 0 < k < CONTEXTS ==> st.contexts[k] == EMPTY
    ensures HoldsObject(st.contexts[0].held, 7) && VmDeallocate(st, true, Deferred(AREA, AREA)).1 == Forwarded
  {
    assert st.contexts[0].held[0].obj == 7;
  }

  lemma MemoryNamed(st: State, q: Request)
    requires st.resources != [] && st.resources[0] == MEMORY && q == Naming([7])
    ensures NamesResource(st, q, 5, MEMORY)
  {
    var b, r := NAMING.blocks[0], Record(0x11, 5, 0, 0, 0);
    assert b in NAMING.blocks && b.Relocs? && r in b.records && r.handles % 0x1_0000 == 5;
    assert Match(st.resources, 1, 5) == Some(MEMORY);
  }
}
