/** What the invariant means for memory, errors and completion, over every run. */
module OwnershipSafety {
  import opened Words
  import opened Ownership
  import opened OwnershipBooks
  import opened OwnershipRuns
  import opened OwnershipKeeps

  // ---- no held range is unmapped ----

  /** Some context holds an address of this range. */
  ghost predicate InUse(cs: seq<Context>, d: Deferred) {
    exists i, k :: 0 <= i < |cs| && 0 <= k < |cs[i].held| && HoldUses(cs[i].held[k], d)
  }

  ghost predicate HoldUses(h: Hold, d: Deferred) {
    Meets(d.address, d.bytes, h.address, h.bytes)
  }

  /** The check the hooks run is exact, but for ranges that reach the top of the address space. */
  lemma HeldExactly(w: World, d: Deferred)
    requires Inv(w)
    ensures HeldRange(w.st.contexts, d) <==> InUse(w.st.contexts, d) && d.address + d.bytes < LIMIT
  {
    var cs := w.st.contexts;
    forall i, k | 0 <= i < |cs| && 0 <= k < |cs[i].held|
      ensures HoldMeets(cs[i].held[k], d) <==> HoldUses(cs[i].held[k], d) && d.address + d.bytes < LIMIT
    {
      assert SlotOk(cs[i]);
      OverlapsExactly(d.address, d.bytes, cs[i].held[k].address, cs[i].held[k].bytes);
    }
    if HeldRange(cs, d) {
      var i, k :| 0 <= i < |cs| && 0 <= k < |cs[i].held| && HoldMeets(cs[i].held[k], d);
      assert HoldUses(cs[i].held[k], d);
    }
    if InUse(cs, d) && d.address + d.bytes < LIMIT {
      var i, k :| 0 <= i < |cs| && 0 <= k < |cs[i].held| && HoldUses(cs[i].held[k], d);
      assert HoldMeets(cs[i].held[k], d);
    }
  }

  /** After any run, a deallocation of our own task goes through to the kernel exactly when no
      context holds any of the range, or the range ends at or past the top of the address space:
      only such a range can be unmapped while it is held. */
  lemma DeallocationExactly(steps: seq<Step>, d: Deferred)
    ensures var w := Run(INIT, steps);
            VmDeallocate(w.st, true, d).1 == Forwarded <==> !InUse(w.st.contexts, d) || d.address + d.bytes >= LIMIT
  {
    InitHolds();
    RunKeeps(INIT, steps);
    ForwardedExactly(Run(INIT, steps), d);
  }

  lemma ForwardedExactly(w: World, d: Deferred)
    requires Inv(w)
    ensures VmDeallocate(w.st, true, d).1 == Forwarded <==> !InUse(w.st.contexts, d) || d.address + d.bytes >= LIMIT
  {
    HeldExactly(w, d);
    ForwardedUnheld(w.st, d);
  }

  lemma ForwardedUnheld(st: State, d: Deferred)
    ensures VmDeallocate(st, true, d).1 == Forwarded <==> !HeldRange(st.contexts, d)
  {
  }

  /** What a step does to the deferred table: nothing, one entry more, or one sweep. */
  ghost predicate SweptBy(st: State, st': State, env: Env) {
    st'.deferred == Sweep(st'.contexts, st.deferred, env) &&
    st'.native.unmapped == st.native.unmapped + Swept(st'.contexts, st.deferred, env) &&
    st'.native.stuck == st.native.stuck + Refusals(st'.contexts, st.deferred, env)
  }

  predicate TableSame(st: State, st': State) {
    st'.deferred == st.deferred && st'.native.unmapped == st.native.unmapped && st'.native.stuck == st.native.stuck
  }

  predicate HoldsGrow(cs: seq<Context>, cs': seq<Context>) {
    |cs'| == |cs| && forall k :: 0 <= k < |cs| ==> cs[k].held <= cs'[k].held
  }

  predicate EntryAdded(st: State, st': State, k: nat) {
    k < |st.deferred| == |st'.deferred| && st.deferred[k].bytes == 0 && st'.contexts == st.contexts &&
    st'.deferred == st.deferred[k := st'.deferred[k]] &&
    st'.native.unmapped == st.native.unmapped && st'.native.stuck == st.native.stuck
  }

  ghost predicate TableStep(st: State, st': State, env: Env) {
    (TableSame(st, st') && HoldsGrow(st.contexts, st'.contexts)) ||
    (exists k :: EntryAdded(st, st', k)) || SweptBy(st, st', env)
  }

  /** A kernel that unmaps whatever it is asked to, for the steps that ask nothing. */
  const OBLIGING := Env(_ => 0, _ => 0, _ => 0, _ => true)

  /** What the kernel answers during this step. */
  function EnvOf(s: Step): Env {
    match s
    case Execute(_, _, env) => env
    case Finish(_, env) => env
    case Drain(_, _, env) => env
    case _ => OBLIGING
  }

  lemma ExecuteTable(w: World, q: Request, env: Env)
    requires Inv(w)
    ensures TableStep(w.st, Begin(w.st, q, env).0, env)
  {
    var i := SlotFor(w.st.contexts, q.io);
    if WellFormed(q) && Free(w.st.contexts, q.io) {
      var st1 := Occupy(w.st, i, q.io);
      var l := Preflight(st1, i, q, env);
      BeginIs(w, q, env, i, st1, l);
      SlotIdle(w, q);
      BegunTable(w.st, st1, Begin(w.st, q, env).0, i, q, env, l);
    }
  }

  lemma BegunTable(st: State, st1: State, st': State, i: nat, q: Request, env: Env, l: Local)
    requires i < |st.contexts| && st1 == Occupy(st, i, q.io) && st1.contexts[i] == EMPTY.(io := q.io)
    requires l == Preflight(st1, i, q, env) && RangesOk(st.resources)
    requires st' == if Bytes(q.scratch) + st.reserved > BUDGET then st1
                    else if l.ok then Install(st1, i, l.(c := l.c.(activity := true)))
                    else SweptOnly(st1, env)
    ensures TableStep(st, st', env)
  {
    if Bytes(q.scratch) + st.reserved <= BUDGET {
      if l.ok { PreflightBuilds(st1, i, q, env, l); } else { assert SweptBy(st, st', env); }
    }
  }

  lemma FinishTable(w: World, tid: nat, env: Env)
    ensures TableStep(w.st, Next(w, Finish(tid, env)).st, env)
  {
    if Running(w, tid, Submitted) {
      CompleteSettles(w.st, w.threads[tid].slot, env);
      assert SweptBy(w.st, Finished(w, tid, env).st, env);
    }
  }

  lemma DrainTable(w: World, tid: nat, drained: bool, env: Env)
    ensures TableStep(w.st, Next(w, Drain(tid, drained, env)).st, env)
  {
    if Running(w, tid, Draining) && drained {
      DrainSettles(w.st, w.threads[tid].slot, env);
      assert SweptBy(w.st, Recovered(w, tid, true, env).st, env);
    }
  }

  lemma LetTable(w: World, io: nat)
    ensures TableStep(w.st, Next(w, ReleaseContext(io)).st, OBLIGING)
  {
    NextLet(w, io);
    LetIs(w, io);
  }

  lemma DeallocateTable(w: World, self: bool, d: Deferred)
    ensures TableStep(w.st, Next(w, Deallocate(self, d)).st, OBLIGING)
  {
    var st, st' := w.st, VmDeallocate(w.st, self, d).0;
    if st' != st { assert EntryAdded(st, st', FirstFree(st.deferred)); }
  }

  lemma RunTable(w: World, tid: nat, q: Request, env: Env)
    requires Inv(w)
    ensures TableStep(w.st, Next(w, Execute(tid, q, env)).st, env)
  {
    ExecuteTable(w, q, env);
  }

  /** Steps outside contexts and table. */
  lemma CatalogueTable(w: World, obj: nat, shared: nat, handle: word, input: Option<Input>)
    ensures TableStep(w.st, Next(w, CreateResource(obj, shared, handle, input)).st, OBLIGING)
    ensures TableStep(w.st, Next(w, ReleaseResource(obj)).st, OBLIGING)
  {
  }

  predicate Untouched(st: State, st': State) {
    st'.contexts == st.contexts && TableSame(st, st')
  }

  lemma UntouchedTable(st: State, st': State)
    requires Untouched(st, st')
    ensures TableStep(st, st', OBLIGING)
  {
  }

  lemma ScratchUntouched(w: World, b: Scratch)
    ensures Untouched(w.st, Next(w, NewScratch(b)).st)
    ensures Untouched(w.st, Next(w, DestroyScratch(b)).st)
  {
  }

  lemma DropUntouched(w: World, io: nat)
    ensures Untouched(w.st, Next(w, DropIo(io)).st)
    ensures Untouched(w.st, Next(w, EndTransaction).st)
  {
  }

  lemma FlagTable(w: World, tid: nat, result: int, device: word, finish: int, started: bool)
    ensures TableStep(w.st, Next(w, Lose(tid, result, device, finish)).st, OBLIGING)
    ensures TableStep(w.st, Next(w, Spawn(tid, started)).st, OBLIGING)
  {
  }

  lemma TableSteps(w: World, s: Step)
    requires Inv(w)
    ensures TableStep(w.st, Next(w, s).st, EnvOf(s))
  {
    var st' := Next(w, s).st;
    match s
    case CreateResource(obj, shared, handle, input) => CatalogueTable(w, obj, shared, handle, input);
    case ReleaseResource(obj) => CatalogueTable(w, obj, 0, 0, None);
    case Deallocate(self, range) => DeallocateTable(w, self, range);
    case NewScratch(b) => ScratchUntouched(w, b); UntouchedTable(w.st, st');
    case DestroyScratch(b) => ScratchUntouched(w, b); UntouchedTable(w.st, st');
    case Execute(tid, q, env) => RunTable(w, tid, q, env);
    case Finish(tid, env) => FinishTable(w, tid, env);
    case Lose(tid, result, device, finish) => FlagTable(w, tid, result, device, finish, false);
    case Spawn(tid, started) => FlagTable(w, tid, 0, 0, 0, started);
    case Drain(tid, drained, env) => DrainTable(w, tid, drained, env);
    case ReleaseContext(io) => LetTable(w, io);
    case DropIo(io) => DropUntouched(w, io); UntouchedTable(w.st, st');
    case EndTransaction => DropUntouched(w, 0); UntouchedTable(w.st, st');
  }

  lemma {:induction false} SweptOnlyDue(cs: seq<Context>, ds: seq<Deferred>, env: Env, d: Deferred)
    ensures Swept(cs, ds, env)[d] > 0 ==> d in ds && Due(cs, d) && env.unmaps(d)
  {
    if ds != [] { SweptOnlyDue(cs, ds[1..], env, d); }
  }

  /** In any run, whatever a step unmaps, no context holds any address of it afterwards. */
  lemma UnmapsNothingHeld(steps: seq<Step>, s: Step, d: Deferred)
    requires var w := Run(INIT, steps); Next(w, s).st.native.unmapped[d] > w.st.native.unmapped[d]
    ensures !InUse(Next(Run(INIT, steps), s).st.contexts, d)
  {
    InitHolds();
    RunKeeps(INIT, steps);
    UnmapStep(Run(INIT, steps), s, d);
  }

  lemma UnmapStep(w: World, s: Step, d: Deferred)
    requires Inv(w) && Next(w, s).st.native.unmapped[d] > w.st.native.unmapped[d]
    ensures !InUse(Next(w, s).st.contexts, d)
  {
    var w' := Next(w, s);
    TableSteps(w, s);
    StepKeeps(w, s);
    UnmapTable(w.st, w'.st, EnvOf(s), d);
    assert DeferredOk(w.st.contexts, w.st.deferred, w.st.native.stuck);
    HeldExactly(w', d);
  }

  lemma UnmapTable(st: State, st': State, env: Env, d: Deferred)
    requires TableStep(st, st', env) && st'.native.unmapped[d] > st.native.unmapped[d]
    ensures d in st.deferred && d.bytes != 0 && !HeldRange(st'.contexts, d)
  {
    SweptOnlyDue(st'.contexts, st.deferred, env, d);
  }

  /** What a step may leave of a deferred range: it stays in the table, not unmapped, while a context
      holds part of it; when none does any more it is unmapped, once, unless the kernel refuses now. */
  ghost predicate Settles(st: State, st': State, env: Env, d: Deferred) {
    if HeldRange(st'.contexts, d) then d in st'.deferred && st'.native.unmapped[d] == st.native.unmapped[d]
    else if env.unmaps(d) then d !in st'.deferred && st'.native.unmapped[d] == st.native.unmapped[d] + 1
    else d in st'.deferred && st'.native.unmapped[d] == st.native.unmapped[d] && d in st'.native.stuck
  }

  /** In any run: a deferred range that is held settles in the very step that drops the last hold. */
  lemma DeferredUntilLastHold(steps: seq<Step>, s: Step, d: Deferred)
    requires var w := Run(INIT, steps); d in w.st.deferred && d.bytes != 0 && HeldRange(w.st.contexts, d)
    ensures Settles(Run(INIT, steps).st, Next(Run(INIT, steps), s).st, EnvOf(s), d)
  {
    InitHolds();
    RunKeeps(INIT, steps);
    var w := Run(INIT, steps);
    TableSteps(w, s);
    StepKeeps(w, s);
    LastHold(w.st, Next(w, s).st, EnvOf(s), d);
  }

  lemma LastHold(st: State, st': State, env: Env, d: Deferred)
    requires TableStep(st, st', env) && d in st.deferred && d.bytes != 0 && HeldRange(st.contexts, d)
    requires DeferredOk(st.contexts, st.deferred, st.native.stuck)
    ensures Settles(st, st', env, d)
  {
    var j :| 0 <= j < |st.deferred| && st.deferred[j] == d;
    if TableSame(st, st') && HoldsGrow(st.contexts, st'.contexts) {
      HeldGrows(st.contexts, st'.contexts, d);
    } else if exists k :: EntryAdded(st, st', k) {
      assert st'.deferred[j] == d;
    } else {
      LastSwept(st, st', env, d, j);
    }
  }

  lemma LastSwept(st: State, st': State, env: Env, d: Deferred, j: nat)
    requires SweptBy(st, st', env) && j < |st.deferred| && st.deferred[j] == d && d.bytes != 0
    requires DeferredOk(st.contexts, st.deferred, st.native.stuck)
    ensures Settles(st, st', env, d)
  {
    assert st'.deferred[j] == if Due(st'.contexts, d) && env.unmaps(d) then NOTHING else d;
    SweptCount(st'.contexts, st.deferred, env, j);
    if !HeldRange(st'.contexts, d) {
      if env.unmaps(d) {
        forall k | 0 <= k < |st'.deferred| ensures st'.deferred[k] != d {
          if k != j && st.deferred[k].bytes != 0 { assert st.deferred[k] != st.deferred[j]; }
        }
      } else {
        assert d in Refusals(st'.contexts, st.deferred, env);
      }
    }
  }

  /** No unmap of the run is refused. */
  ghost predicate Unrefused(steps: seq<Step>) {
    forall k, d {:trigger EnvOf(steps[k]).unmaps(d)} :: 0 <= k < |steps| ==> EnvOf(steps[k]).unmaps(d)
  }

  /** In a run without refusals the table has nothing but ranges some context holds part of. */
  lemma DeferredAreHeld(steps: seq<Step>, j: nat)
    requires Unrefused(steps)
    ensures var st := Run(INIT, steps).st;
            st.native.stuck == {} &&
            (j < |st.deferred| && st.deferred[j].bytes != 0 ==> HeldRange(st.contexts, st.deferred[j]))
  {
    InitHolds();
    RunKeeps(INIT, steps);
    NothingStuck(INIT, steps);
    var st := Run(INIT, steps).st;
    assert DeferredOk(st.contexts, st.deferred, st.native.stuck);
  }

  lemma {:induction false} NothingStuck(w: World, steps: seq<Step>)
    requires Inv(w) && w.st.native.stuck == {} && Unrefused(steps)
    ensures Run(w, steps).st.native.stuck == {}
    decreases |steps|
  {
    if steps != [] {
      var s, rest := steps[0], steps[1..];
      TableSteps(w, s);
      StepKeeps(w, s);
      UnrefusedParts(steps, s, rest);
      NotStuck(w.st, Next(w, s).st, EnvOf(s));
      NothingStuck(Next(w, s), rest);
    }
  }

  lemma UnrefusedParts(steps: seq<Step>, s: Step, rest: seq<Step>)
    requires Unrefused(steps) && steps != [] && s == steps[0] && rest == steps[1..]
    ensures Unrefused(rest) && forall d :: EnvOf(s).unmaps(d)
  {
    forall d ensures EnvOf(s).unmaps(d) { assert EnvOf(steps[0]).unmaps(d); }
    forall k, d | 0 <= k < |rest| ensures EnvOf(rest[k]).unmaps(d) { assert EnvOf(steps[k + 1]).unmaps(d); }
  }

  lemma NotStuck(st: State, st': State, env: Env)
    requires TableStep(st, st', env) && st.native.stuck == {} && forall d :: env.unmaps(d)
    ensures st'.native.stuck == {}
  {
    if SweptBy(st, st', env) { assert Refusals(st'.contexts, st.deferred, env) == {}; }
  }

  lemma HeldGrows(cs: seq<Context>, cs': seq<Context>, d: Deferred)
    requires HoldsGrow(cs, cs') && HeldRange(cs, d)
    ensures HeldRange(cs', d)
  {
    var i, k :| 0 <= i < |cs| && 0 <= k < |cs[i].held| && HoldMeets(cs[i].held[k], d);
    assert cs'[i].held[k] == cs[i].held[k];
  }

  /** Distinct entries are swept at most once each. */
  lemma {:induction false} SweptCount(cs: seq<Context>, ds: seq<Deferred>, env: Env, j: nat)
    requires j < |ds| && ds[j].bytes != 0
    requires forall a, b :: 0 <= a < b < |ds| && ds[a].bytes != 0 ==> ds[a] != ds[b]
    ensures Swept(cs, ds, env)[ds[j]] == if Due(cs, ds[j]) && env.unmaps(ds[j]) then 1 else 0
  {
    if j == 0 {
      SweptOnlyDue(cs, ds[1..], env, ds[0]);
      assert ds[0] !in ds[1..];
    } else {
      SweptCount(cs, ds[1..], env, j - 1);
      assert ds[0] != ds[j];
    }
  }
}
