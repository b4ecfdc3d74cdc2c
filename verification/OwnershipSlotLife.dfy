/** How one slot can change in one step, and what follows over whole runs: errors stay, submitted
    resources stay until the device is known to be done with them, and transactions end when
    completion is confirmed, with one exact exception. */
module OwnershipSlotLife {
  import opened Words
  import opened Ownership
  import opened OwnershipRuns
  import opened OwnershipKeeps

  /** Thread tid, at this stage, works on slot i. */
  predicate Works(w: World, tid: nat, stage: Stage, i: nat) {
    Running(w, tid, stage) && w.threads[tid].slot == i
  }

  /** Everything a step can make of slot i. */
  predicate Moved(w: World, s: Step, i: nat, c: Context, c': Context) {
    || c' == c
    || c' == c.(released := true)
    || (c == EMPTY.(io := c.io) && c'.io != 0 && (c.io != 0 ==> c'.io == c.io) && s.Execute? &&
        (c'.activity ==> c'.busy))
    || (s.Finish? && Works(w, s.tid, Submitted, i) && c' == Over(c))
    || (s.Lose? && Works(w, s.tid, Submitted, i) &&
        c' == c.(busy := false, failed := true, error := FirstError(s.result, s.device, s.finish), recovering := true))
    || (s.Spawn? && Works(w, s.tid, Spawning, i) && c' == c.(recovering := false))
    || (s.Drain? && Works(w, s.tid, Draining, i) && c' == if s.drained then Idle(c) else c.(recovering := false))
    || (s.ReleaseContext? && Find(w.st.contexts, s.io) == i && Spent(c) && c' == EMPTY)
  }

  lemma OtherSlot(cs: seq<Context>, j: nat, c: Context, i: nat)
    requires j < |cs| && i < |cs| && i != j
    ensures cs[j := c][i] == cs[i]
  {
  }

  predicate MovedIn(w: World, s: Step, i: nat) {
    i < |w.st.contexts| == |Next(w, s).st.contexts| && Moved(w, s, i, w.st.contexts[i], Next(w, s).st.contexts[i])
  }

  lemma ExecuteMoves(w: World, tid: nat, q: Request, env: Env, i: nat)
    requires Inv(w) && i < |w.st.contexts|
    ensures MovedIn(w, Execute(tid, q, env), i)
  {
    if Enabled(w, Execute(tid, q, env)) {
      if WellFormed(q) && Free(w.st.contexts, q.io) {
        var j, st1, l := Begun(w, q, env);
        BegunMoves(w, tid, q, env, i, j, st1, l);
      } else {
        NotBegun(w, q, env);
        ExecutedRefused(w, tid, q, env, w.st, Begin(w.st, q, env).1);
      }
    }
  }

  lemma BegunMoves(w: World, tid: nat, q: Request, env: Env, i: nat, j: nat, st1: State, l: Local)
    requires i < |w.st.contexts| && j < |w.st.contexts| && st1 == Occupy(w.st, j, q.io) && q.io != 0
    requires w.st.contexts[j] == EMPTY || w.st.contexts[j] == EMPTY.(io := q.io)
    requires l == Preflight(st1, j, q, env)
    requires Enabled(w, Execute(tid, q, env))
    requires Begin(w.st, q, env) ==
               if Bytes(q.scratch) + w.st.reserved > BUDGET then (st1, Unaffordable)
               else if l.ok then (Install(st1, j, l.(c := l.c.(activity := true))), Accepted(j))
               else (SweptOnly(st1, env), Rejected)
    ensures MovedIn(w, Execute(tid, q, env), i)
  {
    if Bytes(q.scratch) + w.st.reserved > BUDGET {
      ExecutedRefused(w, tid, q, env, st1, Unaffordable);
    } else if !l.ok {
      ExecutedRefused(w, tid, q, env, SweptOnly(st1, env), Rejected);
    } else {
      var c := l.c.(activity := true);
      if i != j { OtherSlot(st1.contexts, j, c, i); }
      ExecutedAccepted(w, tid, q, env, j, Install(st1, j, l.(c := c)), c);
    }
  }

  lemma FinishMoves(w: World, tid: nat, env: Env, i: nat)
    requires i < |w.st.contexts|
    ensures MovedIn(w, Finish(tid, env), i)
  {
    if Running(w, tid, Submitted) { CompleteSettles(w.st, w.threads[tid].slot, env); }
  }

  lemma DrainMoves(w: World, tid: nat, drained: bool, env: Env, i: nat)
    requires i < |w.st.contexts|
    ensures MovedIn(w, Drain(tid, drained, env), i)
  {
    if Running(w, tid, Draining) { DrainSettles(w.st, w.threads[tid].slot, env); }
  }

  lemma LetMoves(w: World, io: nat, i: nat)
    requires i < |w.st.contexts|
    ensures MovedIn(w, ReleaseContext(io), i)
  {
    NextLet(w, io);
    LetIs(w, io);
  }

  lemma FlagMoves(w: World, tid: nat, result: int, device: word, finish: int, started: bool, i: nat)
    requires i < |w.st.contexts|
    ensures MovedIn(w, Lose(tid, result, device, finish), i) && MovedIn(w, Spawn(tid, started), i)
  {
  }

  lemma OtherMoves(w: World, obj: nat, shared: nat, handle: word, input: Option<Input>, self: bool, range: Deferred,
                   i: nat)
    requires i < |w.st.contexts|
    ensures MovedIn(w, CreateResource(obj, shared, handle, input), i) && MovedIn(w, ReleaseResource(obj), i)
    ensures MovedIn(w, Deallocate(self, range), i)
  {
  }

  lemma MoreMoves(w: World, b: Scratch, io: nat, i: nat)
    requires i < |w.st.contexts|
    ensures MovedIn(w, NewScratch(b), i) && MovedIn(w, DestroyScratch(b), i)
    ensures MovedIn(w, DropIo(io), i) && MovedIn(w, EndTransaction, i)
  {
  }

  lemma SlotMoves(w: World, s: Step, i: nat)
    requires Inv(w) && i < |w.st.contexts|
    ensures MovedIn(w, s, i)
  {
    match s
    case CreateResource(obj, shared, handle, input) => OtherMoves(w, obj, shared, handle, input, false, NOTHING, i);
    case ReleaseResource(obj) => OtherMoves(w, obj, 0, 0, None, false, NOTHING, i);
    case Deallocate(self, range) => OtherMoves(w, 0, 0, 0, None, self, range, i);
    case NewScratch(b) => MoreMoves(w, b, 0, i);
    case DestroyScratch(b) => MoreMoves(w, b, 0, i);
    case Execute(tid, q, env) => ExecuteMoves(w, tid, q, env, i);
    case Finish(tid, env) => FinishMoves(w, tid, env, i);
    case Lose(tid, result, device, finish) => FlagMoves(w, tid, result, device, finish, false, i);
    case Spawn(tid, started) => FlagMoves(w, tid, 0, 0, 0, started, i);
    case Drain(tid, drained, env) => DrainMoves(w, tid, drained, env, i);
    case ReleaseContext(io) => LetMoves(w, io, i);
    case DropIo(io) => MoreMoves(w, Scratch(0, 0, 0, 0), io, i);
    case EndTransaction => MoreMoves(w, Scratch(0, 0, 0, 0), 0, i);
  }

  // ---- submitted resources ----

  /** The step confirms that slot i's batch finished: its fence, or a drain of the whole context. */
  predicate Confirms(w: World, s: Step, i: nat) {
    (s.Finish? && Works(w, s.tid, Submitted, i)) || (s.Drain? && s.drained && Works(w, s.tid, Draining, i))
  }

  /** In any run, what a slot holds for a batch stays held until a step that confirms completion. */
  lemma HeldUntilConfirmed(steps: seq<Step>, s: Step, i: nat)
    requires i < CONTEXTS
    requires var c := Run(INIT, steps).st.contexts; i < |c| && (c[i].held != [] || c[i].scratch != [])
    ensures var w := Run(INIT, steps);
            i < |Next(w, s).st.contexts| &&
            (Confirms(w, s, i) ||
             (Next(w, s).st.contexts[i].held == w.st.contexts[i].held &&
                 Next(w, s).st.contexts[i].scratch == w.st.contexts[i].scratch))
  {
    InitHolds();
    RunKeeps(INIT, steps);
    HeldStep(Run(INIT, steps), s, i);
  }

  lemma HeldStep(w: World, s: Step, i: nat)
    requires Inv(w) && i < CONTEXTS && (w.st.contexts[i].held != [] || w.st.contexts[i].scratch != [])
    ensures i < |Next(w, s).st.contexts|
    ensures Confirms(w, s, i) || (Next(w, s).st.contexts[i].held == w.st.contexts[i].held &&
                                  Next(w, s).st.contexts[i].scratch == w.st.contexts[i].scratch)
  {
    SlotMoves(w, s, i);
  }

  /** No step of the run confirms that slot i's batch finished. */
  predicate Unconfirmed(w: World, steps: seq<Step>, i: nat)
    decreases |steps|
  {
    steps == [] || (!Confirms(w, steps[0], i) && Unconfirmed(Next(w, steps[0]), steps[1..], i))
  }

  lemma {:induction false} HeldThrough(w: World, steps: seq<Step>, i: nat)
    requires Inv(w) && i < CONTEXTS && w.st.contexts[i].held != [] && Unconfirmed(w, steps, i)
    ensures Inv(Run(w, steps)) && Run(w, steps).st.contexts[i].held == w.st.contexts[i].held
    decreases |steps|
  {
    if steps != [] {
      HeldStep(w, steps[0], i);
      StepKeeps(w, steps[0]);
      HeldThrough(Next(w, steps[0]), steps[1..], i);
    }
  }

  // ---- errors ----

  /** The context has failed with error e. */
  predicate Poisoned(w: World, io: nat, e: int) {
    var i := Find(w.st.contexts, io);
    io != 0 && i < |w.st.contexts| && w.st.contexts[i].failed && w.st.contexts[i].error == e
  }

  lemma FindUnique(cs: seq<Context>, io: nat, i: nat)
    requires IosDistinct(cs) && i < |cs| && cs[i].io == io && io != 0
    ensures Find(cs, io) == i
  {
  }

  lemma PoisonStep(w: World, s: Step, io: nat, e: int)
    requires Inv(w) && Poisoned(w, io, e)
    ensures Poisoned(Next(w, s), io, e) || Find(Next(w, s).st.contexts, io) == |Next(w, s).st.contexts|
  {
    var w' := Next(w, s);
    var i := Find(w.st.contexts, io);
    var c := w.st.contexts[i];
    SlotMoves(w, s, i);
    StepKeeps(w, s);
    FailedMoves(w, s, i, c, w'.st.contexts[i]);
    if w'.st.contexts[i].io == io {
      FindUnique(w'.st.contexts, io, i);
    } else {
      var cs' := GoneStays(w, s, io, i);
    }
  }

  /** A failed slot stays failed with its error, or is cleared. */
  lemma FailedMoves(w: World, s: Step, i: nat, c: Context, c': Context)
    requires Inv(w) && i < |w.st.contexts| && c == w.st.contexts[i] && c.failed && Moved(w, s, i, c, c')
    ensures c' == EMPTY || (c'.io == c.io && c'.failed && c'.error == c.error)
  {
    assert SlotOk(c);
    assert forall tid :: Works(w, tid, Submitted, i) ==> ThreadOk(w.threads[tid], w.st.contexts);
  }

  /** Executing clears no failed slot. */
  lemma ClearedBy(w: World, s: Step, i: nat)
    requires Inv(w) && i < |w.st.contexts| && w.st.contexts[i].failed
    requires i < |Next(w, s).st.contexts| && Next(w, s).st.contexts[i] == EMPTY
    ensures !s.Execute?
  {
    SlotMoves(w, s, i);
  }

  /** Only executing gives a slot a context. */
  lemma SameIo(w: World, s: Step, k: nat)
    requires Inv(w) && k < |w.st.contexts| && !s.Execute?
    ensures |Next(w, s).st.contexts| == |w.st.contexts|
    ensures Next(w, s).st.contexts[k].io == w.st.contexts[k].io || Next(w, s).st.contexts[k].io == 0
  {
    SlotMoves(w, s, k);
  }

  lemma SameIos(w: World, s: Step) returns (cs': seq<Context>)
    requires Inv(w) && !s.Execute? && w.st.contexts != []
    ensures cs' == Next(w, s).st.contexts && |cs'| == |w.st.contexts|
    ensures forall k :: 0 <= k < |cs'| ==> cs'[k].io == w.st.contexts[k].io || cs'[k].io == 0
  {
    cs' := Next(w, s).st.contexts;
    SameIo(w, s, 0);
    forall k | 0 <= k < |cs'| ensures cs'[k].io == w.st.contexts[k].io || cs'[k].io == 0 { SameIo(w, s, k); }
  }

  lemma Unfound(cs: seq<Context>, cs': seq<Context>, io: nat, i: nat)
    requires |cs'| == |cs| && i < |cs| && io != 0 && cs'[i].io == 0
    requires IosDistinct(cs) && cs[i].io == io
    requires forall k :: 0 <= k < |cs'| ==> cs'[k].io == cs[k].io || cs'[k].io == 0
    ensures Find(cs', io) == |cs'|
  {
    forall k | 0 <= k < |cs'| ensures cs'[k].io != io { assert k != i ==> cs[k].io != io; }
  }

  /** A context whose slot is cleared does not turn up in another one. */
  lemma GoneStays(w: World, s: Step, io: nat, i: nat) returns (cs': seq<Context>)
    requires Inv(w) && io != 0 && i < |w.st.contexts| && w.st.contexts[i].io == io && w.st.contexts[i].failed
    requires i < |Next(w, s).st.contexts| && Next(w, s).st.contexts[i] == EMPTY
    ensures cs' == Next(w, s).st.contexts && Find(cs', io) == |cs'|
  {
    ClearedBy(w, s, i);
    cs' := SameIos(w, s);
    Unfound(w.st.contexts, cs', io, i);
  }

  /** All along the run, the context keeps a slot. */
  predicate Kept(w: World, steps: seq<Step>, io: nat)
    decreases |steps|
  {
    Find(w.st.contexts, io) < |w.st.contexts| && (steps == [] || Kept(Next(w, steps[0]), steps[1..], io))
  }

  /** After a submitted batch fails with e, as long as its slot is not cleared, every error query and
      fence wait gets e, and every execute is refused with e, whatever else happens. */
  lemma {:induction false} PoisonPersists(w: World, steps: seq<Step>, io: nat, e: int, q: Request, env: Env)
    requires Inv(w) && Poisoned(w, io, e) && Kept(w, steps, io)
    requires WellFormed(q) && q.io == io
    ensures Poisoned(Run(w, steps), io, e) && ContextError(Run(w, steps).st.contexts, io) == e != 0
    ensures Begin(Run(w, steps).st, q, env) == (Run(w, steps).st, Unavailable(e))
    decreases |steps|
  {
    if steps == [] {
      assert SlotOk(w.st.contexts[Find(w.st.contexts, io)]);
    } else {
      PoisonStep(w, steps[0], io, e);
      StepKeeps(w, steps[0]);
      PoisonPersists(Next(w, steps[0]), steps[1..], io, e, q, env);
    }
  }

  /** The error a lost batch leaves: the first of submit result, device error, fence result. */
  lemma LosePoisons(w: World, tid: nat, result: int, device: word, finish: int)
    requires Inv(w) && Enabled(w, Lose(tid, result, device, finish))
    ensures Poisoned(Next(w, Lose(tid, result, device, finish)), w.threads[tid].io, FirstError(result, device, finish))
  {
    var p, e := w.threads[tid], FirstError(result, device, finish);
    assert ThreadOk(p, w.st.contexts);
    var st := Fail(w.st, p.slot, e);
    FailedIos(w.st, p.slot, e);
    FindUnique(st.contexts, p.io, p.slot);
  }

  lemma FailedIos(st: State, i: nat, e: int)
    requires i < |st.contexts| && IosDistinct(st.contexts)
    ensures IosDistinct(Fail(st, i, e).contexts) && Fail(st, i, e).contexts[i].io == st.contexts[i].io
  {
    var cs := Fail(st, i, e).contexts;
    assert forall k :: 0 <= k < |cs| ==> cs[k].io == st.contexts[k].io;
  }

  // ---- transactions ----

  /** The step ends the transaction of slot i although nobody saw its failed batch finish. */
  predicate EndsUnconfirmed(w: World, s: Step, i: nat) {
    i in w.unconfirmed && i < |w.st.contexts| == |Next(w, s).st.contexts| &&
    w.st.contexts[i].activity && !Next(w, s).st.contexts[i].activity && !Confirms(w, s, i)
  }

  /** "Never end it on an unconfirmed completion" holds but for one case, and fails in all of that
      case: the native owner releases a context whose failed batch held nothing and whose recovery
      gave up. */
  lemma EndsUnconfirmedExactly(steps: seq<Step>, s: Step, i: nat)
    requires i < CONTEXTS
    ensures var w := Run(INIT, steps);
            EndsUnconfirmed(w, s, i) <==>
              s.ReleaseContext? && Find(w.st.contexts, s.io) == i < |w.st.contexts| && i in w.unconfirmed &&
                  Spent(w.st.contexts[i])
  {
    InitHolds();
    RunKeeps(INIT, steps);
    EndsStep(Run(INIT, steps), s, i);
  }

  lemma EndsStep(w: World, s: Step, i: nat)
    requires Inv(w) && i < CONTEXTS
    ensures EndsUnconfirmed(w, s, i) <==>
              s.ReleaseContext? && Find(w.st.contexts, s.io) == i < |w.st.contexts| && i in w.unconfirmed &&
                  Spent(w.st.contexts[i])
  {
    var c := w.st.contexts[i];
    SlotMoves(w, s, i);
    assert SlotOk(c) && Confirmed(w.unconfirmed, i, c);
    if s.ReleaseContext? && Find(w.st.contexts, s.io) == i && i in w.unconfirmed && Spent(c) {
      NextLet(w, s.io);
      LetIs(w, s.io);
    }
  }
}
