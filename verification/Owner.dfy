/** The lock sections as the source runs them: scans over the fixed tables, fields updated in place.
    Each method is its section of `Ownership`. */
module OwnerTables {
  import opened Words
  import opened Seqs
  import opened Sideband
  import opened Ownership
  import opened OwnershipBooks
  import opened OwnershipRuns
  import opened OwnershipSlots
  import opened OwnershipKeeps

  /** A scan that stops at the first slot of this context finds it. */
  lemma FoundFirst(cs: seq<Context>, io: nat, i: nat)
    requires i <= |cs| && (i < |cs| ==> cs[i].io == io) && forall k :: 0 <= k < i ==> cs[k].io != io
    ensures Find(cs, io) == i
  {
  }

  lemma EmptyFirst(rs: seq<Resource>, i: nat)
    requires i <= |rs| && (i < |rs| ==> rs[i].obj == 0) && forall k :: 0 <= k < i ==> rs[k].obj != 0
    ensures FirstEmpty(rs) == i
  {
  }

  lemma ObjectFirst(rs: seq<Resource>, obj: nat, i: nat)
    requires i <= |rs| && (i < |rs| ==> rs[i].obj == obj) && forall k :: 0 <= k < i ==> rs[k].obj != obj
    ensures FirstObject(rs, obj) == i
  {
  }

  lemma FreeFirst(ds: seq<Deferred>, i: nat)
    requires i <= |ds| && (i < |ds| ==> ds[i].bytes == 0) && forall k :: 0 <= k < i ==> ds[k].bytes != 0
    ensures FirstFree(ds) == i
  {
  }

  predicate Matches(r: Resource, shared: nat, handle: word) {
    r.obj != 0 && r.shared == shared && r.handle == handle
  }

  lemma {:induction false} MatchFirst(rs: seq<Resource>, shared: nat, handle: word, i: nat)
    requires i <= |rs| && (i < |rs| ==> Matches(rs[i], shared, handle)) && forall k :: 0 <= k < i ==>
             !Matches(rs[k], shared, handle)
    ensures Match(rs, shared, handle) == if i < |rs| then Some(rs[i]) else None
  {
    if i > 0 {
      assert !Matches(rs[0], shared, handle);
      forall k | 0 <= k < i - 1 ensures !Matches(rs[1..][k], shared, handle) { assert rs[1..][k] == rs[k + 1]; }
      MatchFirst(rs[1..], shared, handle, i - 1);
    }
  }

  // ---- loops over holds, scratch and the deferred table ----

  /** The ledger with these holds' references dropped. */
  function Dropping(n: Native, held: seq<Hold>): Native {
    n.(objects := n.objects - Objects(held), uses := n.uses - Surfaces(held), surfaces := n.surfaces - Surfaces(held))
  }

  function DropRef(n: Native, h: Hold): Native {
    n.(objects := n.objects - multiset{h.obj}, uses := n.uses - Surface(h), surfaces := n.surfaces - Surface(h))
  }

  lemma MinusBoth<T>(a: multiset<T>, x: multiset<T>, y: multiset<T>)
    ensures (a - x) - y == a - (x + y)
  {
  }

  lemma DropOne(n: Native, held: seq<Hold>, k: nat)
    requires k < |held|
    ensures Dropping(n, held[..k + 1]) == DropRef(Dropping(n, held[..k]), held[k])
  {
    assert held[..k + 1][..k] == held[..k];
    MinusBoth(n.objects, Objects(held[..k]), multiset{held[k].obj});
    MinusBoth(n.uses, Surfaces(held[..k]), Surface(held[k]));
    MinusBoth(n.surfaces, Surfaces(held[..k]), Surface(held[k]));
  }

  lemma DropNone(n: Native)
    ensures Dropping(n, []) == n
  {
  }

  /** What one entry of the table becomes, and what that books. */
  function SweepEntry(cs: seq<Context>, d: Deferred, env: Env): Deferred {
    if Due(cs, d) && env.unmaps(d) then NOTHING else d
  }

  function BookEntry(n: Native, cs: seq<Context>, d: Deferred, env: Env): Native {
    if !Due(cs, d) then n
    else if env.unmaps(d) then n.(unmapped := n.unmapped + multiset{d})
    else n.(stuck := n.stuck + {d})
  }

  /** Midway through the sweep, `done` entries are settled. */
  ghost predicate Sweeping(n0: Native, n: Native, cs: seq<Context>, ds0: seq<Deferred>, ds: seq<Deferred>, done: nat,
                           env: Env)
  {
    done <= |ds0| == |ds| &&
    (forall j :: 0 <= j < |ds| ==> ds[j] == if j < done then SweepEntry(cs, ds0[j], env) else ds0[j]) &&
    n == n0.(unmapped := n.unmapped, stuck := n0.stuck + Refusals(cs, ds0[..done], env)) &&
    n.unmapped + Swept(cs, ds0[done..], env) == n0.unmapped + Swept(cs, ds0, env)
  }

  lemma SweepingStep(n0: Native, n: Native, cs: seq<Context>, ds0: seq<Deferred>, ds: seq<Deferred>, done: nat,
                     env: Env)
    requires Sweeping(n0, n, cs, ds0, ds, done, env) && done < |ds0|
    ensures Sweeping(n0, BookEntry(n, cs, ds[done], env), cs, ds0, ds[done := SweepEntry(cs, ds[done], env)], done + 1,
                     env)
  {
    var d := ds0[done];
    assert ds0[done..][0] == d && ds0[done..][1..] == ds0[done + 1..];
    SweptHead(cs, ds0[done..], env, n.unmapped);
    RefusalsSnoc(cs, ds0, done, env);
  }

  lemma SweptHead(cs: seq<Context>, ds: seq<Deferred>, env: Env, u: multiset<Deferred>)
    requires ds != []
    ensures u + Swept(cs, ds, env) ==
              (if Due(cs, ds[0]) && env.unmaps(ds[0]) then u + multiset{ds[0]} else u) + Swept(cs, ds[1..], env)
  {
  }

  lemma RefusalsSnoc(cs: seq<Context>, ds: seq<Deferred>, k: nat, env: Env)
    requires k < |ds|
    ensures Refusals(cs, ds[..k + 1], env) ==
              Refusals(cs, ds[..k], env) + if Due(cs, ds[k]) && !env.unmaps(ds[k]) then {ds[k]} else {}
  {
    assert ds[..k + 1] == ds[..k] + [ds[k]];
  }

  lemma SweepingEnds(n0: Native, n: Native, cs: seq<Context>, ds0: seq<Deferred>, ds: seq<Deferred>, env: Env)
    requires Sweeping(n0, n, cs, ds0, ds, |ds0|, env)
    ensures ds == Sweep(cs, ds0, env)
    ensures n == n0.(unmapped := n0.unmapped + Swept(cs, ds0, env), stuck := n0.stuck + Refusals(cs, ds0, env))
  {
    assert ds0[..|ds0|] == ds0 && ds0[|ds0|..] == [];
    assert n.unmapped + multiset{} == n.unmapped;
  }

  /** The ledger once slot context c let go of everything, the others being as in cs. */
  function Dropped(n: Native, c: Context, cs: seq<Context>, ds: seq<Deferred>, env: Env): Native {
    var n1 := Dropping(n, c.held);
    n1.(unmapped := n1.unmapped + Swept(cs, ds, env), stuck := n1.stuck + Refusals(cs, ds, env),
        scratch := n1.scratch - multiset(c.scratch))
  }

  /** The four loops together. */
  lemma Released(st: State, i: nat, env: Env)
    requires i < |st.contexts|
    ensures var c, cs := st.contexts[i], st.contexts[i := st.contexts[i].(held := [])];
            Ownership.ReleaseHolds(st, i, env) ==
              State(st.resources, st.contexts[i := Drop(c)], Sweep(cs, st.deferred, env), Minus(st.reserved, c.charged),
                    Dropped(st.native, c, cs, st.deferred, env))
  {
    SweepDependsOnHolds(st.contexts, i, st.contexts[i].(held := []), Drop(st.contexts[i]), st.deferred, env);
  }

  // ---- the walk of the sideband ----

  /** Both fail, or both succeed with the same slot. */
  predicate Agree(a: Local, b: Local) { (a.ok <==> b.ok) && (a.ok ==> a == b) }

  /** What the rest of a relocation body asks for. */
  function TakeBody(l: Local, rs: seq<Resource>, shared: nat, body: seq<word>, env: Env): Local {
    match ParseRecords(body)
    case None => l.(ok := false)
    case Some((recs, _)) => AddRecords(l, rs, shared, recs, env)
  }

  /** One record of it. */
  lemma TakeBodyStep(l: Local, rs: seq<Resource>, shared: nat, body: seq<word>, env: Env)
    requires l.ok && |body| >= 5 && body[0] != 0 && body[0] % 2 == 1
    ensures var l1 := AddRecord(l, rs, shared, RecordAt(body, 0), env);
            if l1.ok then Agree(TakeBody(l, rs, shared, body, env), TakeBody(l1, rs, shared, body[5..], env))
            else !TakeBody(l, rs, shared, body, env).ok
  {
    var p := ParseRecords(body[5..]);
    if p.Some? { ConsParts(RecordAt(body, 0), p.value.0); }
  }

  /** What the rest of a sideband asks for. */
  function TakeTail(l: Local, rs: seq<Resource>, shared: nat, tail: seq<word>, env: Env): Local {
    match ParseBlocks(tail)
    case None => l.(ok := false)
    case Some((bs, _)) => AddBlocks(l, rs, shared, bs, env)
  }

  lemma TakeTailStep(l: Local, rs: seq<Resource>, shared: nat, tail: seq<word>, n: nat, env: Env)
    requires l.ok && tail != [] && tail[0] != TERMINAL && n == tail[0] / 0x1_0000 && 2 <= n <= |tail|
    ensures tail[0] % 0x1_0000 != RELOCATIONS ==>
              Agree(TakeTail(l, rs, shared, tail, env), TakeTail(l, rs, shared, tail[n..], env))
    ensures tail[0] % 0x1_0000 == RELOCATIONS && n < 3 ==> !TakeTail(l, rs, shared, tail, env).ok
    ensures tail[0] % 0x1_0000 == RELOCATIONS && n >= 3 ==>
              var l1 := TakeBody(l, rs, shared, tail[..n][3..], env);
              if l1.ok then Agree(TakeTail(l, rs, shared, tail, env), TakeTail(l1, rs, shared, tail[n..], env))
              else !TakeTail(l, rs, shared, tail, env).ok
  {
    var p, b := ParseBlocks(tail[n..]), ParseBlock(tail[..n]);
    if p.Some? && b.Some? {
      ConsParts(b.value, p.value.0);
    }
  }

  lemma TakeTailEnds(l: Local, rs: seq<Resource>, shared: nat, tail: seq<word>, env: Env)
    requires l.ok && (tail == [] || tail[0] == TERMINAL || tail[0] / 0x1_0000 < 2 || tail[0] / 0x1_0000 > |tail|)
    ensures if |tail| == 2 && tail[0] == TERMINAL then TakeTail(l, rs, shared, tail, env) == l
            else !TakeTail(l, rs, shared, tail, env).ok
  {
  }

  /** One slot taking holds for the context c over the ledger n, in the table cs. `ok` is a function
      value for the same reason as below. */
  datatype Stand = Stand(i: nat, cs: seq<Context>, c: Context, n: Native, spare: int,
      ok: (Local, seq<Context>) -> bool) {
    ghost predicate Valid() {
      i < |cs| && forall l: Local, now: seq<Context> {:trigger Holds(l, now)} :: ok(l, now) <==> Holds(l, now)
    }

    ghost predicate Holds(l: Local, now: seq<Context>) {
      i < |cs| && Built(c, n, l) && l.reserved - l.c.charged == spare && now == cs[i := l.c]
    }
  }

  lemma StandAt(i: nat, cs: seq<Context>, c: Context, n: Native, l: Local) returns (w: Stand)
    requires i < |cs| && Built(c, n, l) && cs[i] == l.c
    ensures w.Valid() && w.ok(l, cs) && w.i == i && w.cs == cs && w.c == c && w.n == n &&
            w.spare == l.reserved - l.c.charged
  {
    var spare := l.reserved - l.c.charged;
    w := Stand(i, cs, c, n, spare, (x: Local, now: seq<Context>) =>
      i < |cs| && Built(c, n, x) && x.reserved - x.c.charged == spare && now == cs[i := x.c]);
    assert w.Holds(l, cs);
  }

  lemma StandHandle(w: Stand, l: Local, now: seq<Context>, rs: seq<Resource>, shared: nat, handle: word, env: Env,
      l1: Local, now1: seq<Context>)
    requires w.Valid() && w.ok(l, now) && RangesOk(rs) && l.ok &&
             l1 == AddHandle(l, rs, shared, handle, env).(ok := true)
    requires |now1| == |now| && w.i < |now1| && now1[w.i] == l1.c && forall k :: 0 <= k < |now| && k != w.i ==>
             now1[k] == now[k]
    ensures w.ok(l1, now1)
  {
    assert w.Holds(l, now);
    BuiltHandle(w.c, w.n, l, rs, shared, handle, env);
    assert now1 == w.cs[w.i := l1.c];
    assert w.Holds(l1, now1);
  }

  lemma StandHold(w: Stand, l: Local, now: seq<Context>, obj: nat, env: Env, l1: Local, now1: seq<Context>)
    requires w.Valid() && w.ok(l, now) && l.ok && l1 == AddHold(l, obj, None, env).(ok := true)
    requires |now1| == |now| && w.i < |now1| && now1[w.i] == l1.c && forall k :: 0 <= k < |now| && k != w.i ==>
             now1[k] == now[k]
    ensures w.ok(l1, now1)
  {
    assert w.Holds(l, now);
    BuiltHold(w.c, w.n, l, obj, None, env);
    assert now1 == w.cs[w.i := l1.c];
    assert w.Holds(l1, now1);
  }

  /** The preflight is the buffers, then the sideband. */
  lemma GatherParts(l: Local, rs: seq<Resource>, q: Request, env: Env)
    requires l.ok && |q.side| >= 6
    ensures |q.buffers| > 16 ==> !Ownership.Gather(l.(ok := false), rs, q, env).ok
    ensures var l1 := AddBuffers(l, q.buffers, env);
            if l1.ok then Agree(Ownership.Gather(l, rs, q, env), TakeTail(l1, rs, q.shared, q.side[4..], env))
            else !Ownership.Gather(l, rs, q, env).ok
  {
  }

  lemma {:induction false} BytesPrefix(scratch: seq<Scratch>, k: nat)
    requires k <= |scratch|
    ensures Bytes(scratch[..k]) <= Bytes(scratch)
    decreases |scratch| - k
  {
    if k < |scratch| {
      BytesPrefix(scratch, k + 1);
      assert scratch[..k + 1][..k] == scratch[..k];
    } else {
      assert scratch[..k] == scratch;
    }
  }

  lemma BuiltNothing(c: Context, l: Local)
    requires l.c == c && c.held == [] && l.reserved <= BUDGET
    ensures Built(c, l.native, l)
  {
    assert Holding(l.native, []) == l.native;
  }

  /** Wherever the preflight gave up, rejecting comes to the same. */
  lemma SameReject(st: State, i: nat, q: Request, env: Env, l: Local, l': Local)
    requires i < |st.contexts| && st.contexts[i] == EMPTY.(io := q.io) && RangesOk(st.resources)
    requires st.reserved + Bytes(q.scratch) <= BUDGET && l' == Preflight(st, i, q, env)
    requires Built(Starting(q.io, q.scratch), st.native, l) && l.reserved == st.reserved + l.c.charged
    ensures Ownership.Reject(st, i, l, env) == Ownership.Reject(st, i, l', env)
  {
    RejectBuilt(st, i, q.io, q.scratch, env, l);
    RejectLeavesNothing(st, i, q, env, l');
  }

  /** A slot that is neither failed nor busy is empty or idle. */
  lemma FreeSlot(st: State, io: nat, i: nat)
    requires SlotsOk(st.contexts) && io != 0 && i == SlotFor(st.contexts, io) < |st.contexts|
    requires var f := Find(st.contexts, io); f < |st.contexts| ==> !st.contexts[f].failed && !st.contexts[f].busy
    ensures Free(st.contexts, io) && Ownership.Occupy(st, i, io).contexts[i] == EMPTY.(io := io)
  {
    assert SlotOk(st.contexts[i]);
  }

  lemma StandHolds(w: Stand, l: Local, now: seq<Context>)
    requires w.Valid() && w.ok(l, now)
    ensures w.Holds(l, now)
  {
  }

  /** Taking the rest of a body, or of a sideband, from position r on. `rest` is a function value so
      that the loops can carry the goal without looking inside. */
  datatype Quest = Quest(goal: Local, side: seq<word>, hi: nat, rest: (Local, nat) -> bool) {
    ghost predicate InBody(rs: seq<Resource>, shared: nat, env: Env) {
      hi <= |side| && forall l: Local, r: nat {:trigger BodyFrom(l, r, rs, shared, env)} :: rest(l, r) <==>
          BodyFrom(l, r, rs, shared, env)
    }

    ghost predicate BodyFrom(l: Local, r: nat, rs: seq<Resource>, shared: nat, env: Env) {
      r <= hi <= |side| && Agree(goal, TakeBody(l, rs, shared, side[r..hi], env))
    }

    ghost predicate InTail(rs: seq<Resource>, shared: nat, env: Env) {
      forall l: Local, t: nat {:trigger TailFrom(l, t, rs, shared, env)} :: rest(l, t) <==>
          TailFrom(l, t, rs, shared, env)
    }

    ghost predicate TailFrom(l: Local, t: nat, rs: seq<Resource>, shared: nat, env: Env) {
      t <= |side| && Agree(goal, TakeTail(l, rs, shared, side[t..], env))
    }
  }

  lemma BodyQuest(l: Local, rs: seq<Resource>, shared: nat, side: seq<word>, lo: nat, hi: nat,
      env: Env) returns (w: Quest)
    requires lo <= hi <= |side|
    ensures w.InBody(rs, shared, env) && w.rest(l, lo) && w.goal == TakeBody(l, rs, shared, side[lo..hi], env)
    ensures w.side == side && w.hi == hi
  {
    var goal := TakeBody(l, rs, shared, side[lo..hi], env);
    w := Quest(goal, side, hi, (x: Local, r: nat) => r <= hi <= |side| &&
        Agree(goal, TakeBody(x, rs, shared, side[r..hi], env)));
    assert w.BodyFrom(l, lo, rs, shared, env);
  }

  lemma BodyNext(w: Quest, rs: seq<Resource>, shared: nat, env: Env, l: Local, r: nat, l1: Local)
    requires w.InBody(rs, shared, env) && w.rest(l, r) && l.ok && r + 5 <= w.hi && w.side[r] != 0 && w.side[r] % 2 == 1
    requires Agree(l1, AddRecord(l, rs, shared, RecordAt(w.side, r), env))
    ensures if l1.ok then w.rest(l1, r + 5) else !w.goal.ok
  {
    assert w.BodyFrom(l, r, rs, shared, env);
    var body := w.side[r..w.hi];
    assert RecordAt(body, 0) == RecordAt(w.side, r) && body[5..] == w.side[r + 5..w.hi];
    TakeBodyStep(l, rs, shared, body, env);
    if l1.ok { assert w.BodyFrom(l1, r + 5, rs, shared, env); }
  }

  lemma BodyEnd(w: Quest, rs: seq<Resource>, shared: nat, env: Env, l: Local, r: nat)
    requires w.InBody(rs, shared, env) && w.rest(l, r) && l.ok
    ensures r <= w.hi
    ensures r == w.hi ==> w.goal == l
    ensures r < w.hi && w.side[r] == 0 ==> if AllZero(w.side[r..w.hi]) then w.goal == l else !w.goal.ok
    ensures r < w.hi && w.side[r] != 0 && (w.hi - r < 5 || w.side[r] % 2 != 1) ==> !w.goal.ok
  {
    assert w.BodyFrom(l, r, rs, shared, env);
  }

  lemma TailQuest(l: Local, rs: seq<Resource>, shared: nat, side: seq<word>, env: Env) returns (w: Quest)
    requires |side| >= 4
    ensures w.InTail(rs, shared, env) && w.rest(l, 4) && w.goal == TakeTail(l, rs, shared, side[4..], env) &&
            w.side == side
  {
    var goal := TakeTail(l, rs, shared, side[4..], env);
    w := Quest(goal, side, 0, (x: Local, t: nat) => t <= |side| &&
        Agree(goal, TakeTail(x, rs, shared, side[t..], env)));
    assert w.TailFrom(l, 4, rs, shared, env);
  }

  /** One block: its relocations are taken, or it has none. */
  lemma TailNext(w: Quest, rs: seq<Resource>, shared: nat, env: Env, l: Local, t: nat, l1: Local)
    requires w.InTail(rs, shared, env) && w.rest(l, t) && l.ok && t < |w.side| && w.side[t] != TERMINAL
    requires var n := w.side[t] / 0x1_0000;
             2 <= n <= |w.side| - t &&
             if w.side[t] % 0x1_0000 != RELOCATIONS then l1 == l
             else if n < 3 then !l1.ok
             else Agree(l1, TakeBody(l, rs, shared, w.side[t + 3..t + n], env))
    ensures if l1.ok then w.rest(l1, t + w.side[t] / 0x1_0000) else !w.goal.ok
  {
    assert w.TailFrom(l, t, rs, shared, env);
    var n := w.side[t] / 0x1_0000;
    WindowOf(w.side, t, n);
    TakeTailStep(l, rs, shared, w.side[t..], n, env);
    if l1.ok { assert w.TailFrom(l1, t + n, rs, shared, env); }
  }

  lemma TailEnd(w: Quest, rs: seq<Resource>, shared: nat, env: Env, l: Local, t: nat)
    requires w.InTail(rs, shared, env) && w.rest(l, t) && l.ok
    requires t >= |w.side| || w.side[t] == TERMINAL || w.side[t] / 0x1_0000 < 2 || w.side[t] / 0x1_0000 > |w.side| - t
    ensures t <= |w.side|
    ensures if t + 2 == |w.side| && w.side[t] == TERMINAL then w.goal == l else !w.goal.ok
  {
    assert w.TailFrom(l, t, rs, shared, env);
    TakeTailEnds(l, rs, shared, w.side[t..], env);
  }

  lemma WindowOf(side: seq<word>, t: nat, n: nat)
    requires 2 <= n && t + n <= |side|
    ensures side[t..][n..] == side[t + n..] && side[t..][0] == side[t]
    ensures n >= 3 ==> side[t..][..n][3..] == side[t + 3..t + n]
  {
  }

  class Owner {
    const resources: array<Resource>
    const contexts: array<Context>
    const deferred: array<Deferred>
    var reserved: nat
    var native: Native

    ghost predicate Valid()
      reads this
    {
      resources.Length == RESOURCES && contexts.Length == CONTEXTS && deferred.Length == DEFERRED
    }

    ghost function Now(): State
      reads this, resources, contexts, deferred
    {
      State(resources[..], contexts[..], deferred[..], reserved, native)
    }

    /** Slot i with the shared counters. */
    function Slot(i: nat): Local
      requires i < contexts.Length
      reads this, contexts
    {
      Local(contexts[i], reserved, native, true)
    }

    constructor ()
      ensures Valid() && fresh(resources) && fresh(contexts) && fresh(deferred) && Now() == INIT.st
    {
      resources := new Resource[RESOURCES](_ => NO_RESOURCE);
      contexts := new Context[CONTEXTS](_ => EMPTY);
      deferred := new Deferred[DEFERRED](_ => NOTHING);
      reserved, native := 0, NO_NATIVE;
    }

    // ---- scans ----

    method IsHeld(d: Deferred) returns (held: bool)
      ensures held <==> HeldRange(contexts[..], d)
    {
      var i := 0;
      while i < contexts.Length
        invariant 0 <= i <= contexts.Length
        invariant forall j, k :: 0 <= j < i && 0 <= k < |contexts[..][j].held| ==>
                  !HoldMeets(contexts[..][j].held[k], d)
      {
        var c, n := contexts[i], 0;
        while n < |c.held|
          invariant 0 <= n <= |c.held|
          invariant forall k :: 0 <= k < n ==> !HoldMeets(c.held[k], d)
        {
          if HoldMeets(c.held[n], d) {
            assert contexts[..][i].held[n] == c.held[n];
            return true;
          }
          n := n + 1;
        }
        i := i + 1;
      }
      held := false;
    }

    method FindSlot(io: nat) returns (i: nat)
      ensures i == Find(contexts[..], io)
    {
      i := 0;
      while i < contexts.Length && contexts[i].io != io
        invariant 0 <= i <= contexts.Length
        invariant forall k :: 0 <= k < i ==> contexts[..][k].io != io
      {
        i := i + 1;
      }
      FoundFirst(contexts[..], io, i);
    }

    // ---- the catalogue ----

    /** Enter a created resource; `added` says whether there was room. */
    method Create(r: Resource) returns (added: bool)
      requires Valid()
      modifies this`native, resources
      ensures Now() == Ownership.Create(old(Now()), r)
      ensures added <==> FirstEmpty(old(resources[..])) < RESOURCES
    {
      var k := 0;
      while k < resources.Length && resources[k].obj != 0
        invariant 0 <= k <= resources.Length
        invariant forall j :: 0 <= j < k ==> resources[..][j].obj != 0
      {
        k := k + 1;
      }
      EmptyFirst(resources[..], k);
      if k == resources.Length { return false; }
      resources[k] := r;
      native := native.(surfaces := native.surfaces + One(r.surface));
      added := true;
    }

    method ResourceRelease(obj: nat)
      requires Valid()
      modifies this`native, resources
      ensures Now() == Ownership.ResourceRelease(old(Now()), obj)
    {
      if obj == 0 { return; }
      var k := 0;
      while k < resources.Length && resources[k].obj != obj
        invariant 0 <= k <= resources.Length
        invariant forall j :: 0 <= j < k ==> resources[..][j].obj != obj
      {
        k := k + 1;
      }
      ObjectFirst(resources[..], obj, k);
      if k == resources.Length { return; }
      native := native.(surfaces := native.surfaces - One(resources[k].surface));
      resources[k] := NO_RESOURCE;
    }

    // ---- deallocation ----

    method VmDeallocate(self: bool, d: Deferred) returns (outcome: Unmap)
      requires Valid()
      modifies this`native, deferred
      ensures (Now(), outcome) == Ownership.VmDeallocate(old(Now()), self, d)
    {
      var held := IsHeld(d);
      if !self || !held { return Forwarded; }
      var k := 0;
      while k < deferred.Length
        invariant 0 <= k <= deferred.Length
        invariant forall j :: 0 <= j < k ==> deferred[..][j] != d
      {
        if deferred[k] == d {
          assert deferred[..][k] == d;
          return Done;
        }
        k := k + 1;
      }
      k := 0;
      while k < deferred.Length && deferred[k].bytes != 0
        invariant 0 <= k <= deferred.Length
        invariant forall j :: 0 <= j < k ==> deferred[..][j].bytes != 0
      {
        k := k + 1;
      }
      FreeFirst(deferred[..], k);
      if k == deferred.Length { return Shortage; }
      deferred[k] := d;
      native := native.(deferrals := native.deferrals + multiset{d});
      outcome := Done;
    }

    // ---- holds ----

    /** Take a hold for slot i; false where the source gives up. */
    method AddHold(i: nat, obj: nat, r: Option<Resource>, env: Env) returns (ok: bool)
      requires Valid() && i < contexts.Length
      modifies this`reserved, this`native, contexts
      ensures var l := Ownership.AddHold(old(Slot(i)), obj, r, env); ok == l.ok && Slot(i) == l.(ok := true)
      ensures forall k :: 0 <= k < contexts.Length && k != i ==> contexts[k] == old(contexts[k])
    {
      if obj == 0 { return false; }
      var held := HoldsAlready(i, obj);
      if held { return true; }
      var c := contexts[i];
      if |c.held| == HELD || (r.Some? && !r.value.supported) { return false; }
      var charge := if r.Some? && r.value.surface != 0 then env.allocSize(r.value.surface) else env.dataSize(obj);
      if r.Some? && r.value.bytes > charge { charge := r.value.bytes; }
      if charge + reserved > BUDGET { return false; }
      var h := if r.Some? then Hold(obj, r.value.address, r.value.bytes, r.value.surface) else Hold(obj, 0, 0, 0);
      Enter(i, h, charge);
      ok := true;
    }

    /** Charge slot i for a hold and take its references. */
    method Enter(i: nat, h: Hold, charge: nat)
      requires i < contexts.Length
      modifies this`reserved, this`native, contexts
      ensures Slot(i) == Take(old(Slot(i)), h, charge)
      ensures forall k :: 0 <= k < contexts.Length && k != i ==> contexts[k] == old(contexts[k])
    {
      reserved := reserved + charge;
      contexts[i] := contexts[i].(held := contexts[i].held + [h], charged := contexts[i].charged + charge);
      native := native.(objects := native.objects + multiset{h.obj}, uses := native.uses + Surface(h),
                        surfaces := native.surfaces + Surface(h));
    }

    method HoldsAlready(i: nat, obj: nat) returns (held: bool)
      requires i < contexts.Length
      ensures held <==> HoldsObject(contexts[i].held, obj)
    {
      var c, n := contexts[i], 0;
      while n < |c.held|
        invariant 0 <= n <= |c.held|
        invariant forall k :: 0 <= k < n ==> c.held[k].obj != obj
      {
        if c.held[n].obj == obj { return true; }
        n := n + 1;
      }
      held := false;
    }

    method AddHandle(i: nat, shared: nat, handle: word, env: Env) returns (ok: bool)
      requires Valid() && i < contexts.Length
      modifies this`reserved, this`native, contexts
      ensures var l := Ownership.AddHandle(old(Slot(i)), resources[..], shared, handle, env);
              ok == l.ok && Slot(i) == l.(ok := true)
      ensures forall k :: 0 <= k < contexts.Length && k != i ==> contexts[k] == old(contexts[k])
    {
      if handle == 0 { return false; }
      var c, n := contexts[i], 0;
      while n < |c.scratch|
        invariant 0 <= n <= |c.scratch|
        invariant forall k :: 0 <= k < n ==> c.scratch[k].handle != handle
      {
        if c.scratch[n].handle == handle { return true; }
        n := n + 1;
      }
      n := 0;
      while n < resources.Length && !Matches(resources[n], shared, handle)
        invariant 0 <= n <= resources.Length
        invariant forall k :: 0 <= k < n ==> !Matches(resources[..][k], shared, handle)
      {
        n := n + 1;
      }
      MatchFirst(resources[..], shared, handle, n);
      if n < resources.Length {
        ok := AddHold(i, resources[n].obj, Some(resources[n]), env);
        return;
      }
      n := 0;
      while n < |c.held|
        invariant 0 <= n <= |c.held|
        invariant forall k :: 0 <= k < n ==> env.metaHandle(c.held[k].obj) != handle
      {
        if env.metaHandle(c.held[n].obj) == handle { return true; }
        n := n + 1;
      }
      ok := false;
    }

    // ---- dropping ----

    method DropReference(h: Hold)
      modifies this`native
      ensures native == DropRef(old(native), h)
    {
      native := native.(objects := native.objects - multiset{h.obj});
      if h.surface != 0 {
        native := native.(uses := native.uses - multiset{h.surface}, surfaces := native.surfaces - multiset{h.surface});
      }
    }

    /** Release the objects and surfaces of these holds, one after the other. */
    method DropReferences(held: seq<Hold>)
      modifies this`native
      ensures native == Dropping(old(native), held)
    {
      var n := 0;
      ghost var n0 := native;
      DropNone(native);
      while n < |held|
        invariant 0 <= n <= |held| && native == Dropping(n0, held[..n])
      {
        DropOne(n0, held, n);
        DropReference(held[n]);
        n := n + 1;
      }
      assert held[..n] == held;
    }

    /** Unmap every deferred range nobody holds any more. */
    method SweepDeferred(env: Env)
      modifies this`native, deferred
      ensures deferred[..] == Sweep(contexts[..], old(deferred[..]), env)
      ensures native == old(native).(unmapped := old(native).unmapped + Swept(contexts[..], old(deferred[..]), env),
                                     stuck := old(native).stuck + Refusals(contexts[..], old(deferred[..]), env))
    {
      ghost var n0, cs, ds0 := native, contexts[..], deferred[..];
      var j := 0;
      assert ds0[..0] == [] && ds0[0..] == ds0;
      while j < deferred.Length
        invariant 0 <= j <= deferred.Length && contexts[..] == cs && |ds0| == deferred.Length
        invariant Sweeping(n0, native, cs, ds0, deferred[..], j, env)
      {
        var d := deferred[j];
        SweepingStep(n0, native, cs, ds0, deferred[..], j, env);
        if d.bytes != 0 {
          var held := IsHeld(d);
          if !held {
            if env.unmaps(d) {
              deferred[j] := NOTHING;
              native := native.(unmapped := native.unmapped + multiset{d});
            } else {
              native := native.(stuck := native.stuck + {d});
            }
          }
        }
        j := j + 1;
      }
      SweepingEnds(n0, native, cs, ds0, deferred[..], env);
    }

    /** Destroy slot i's scratch, one buffer after the other. */
    method DestroyScratch(i: nat)
      requires i < contexts.Length
      modifies this`native, contexts
      ensures contexts[..] == old(contexts[..])[i := old(contexts[i]).(scratch := [])]
      ensures native == old(native).(scratch := old(native).scratch - multiset(old(contexts[i]).scratch))
    {
      var c, n := contexts[i], 0;
      ghost var n0 := native;
      while n < |c.scratch|
        invariant 0 <= n <= |c.scratch| && contexts[i] == c
        invariant native == n0.(scratch := n0.scratch - multiset(c.scratch[..n])) && contexts[..] == old(contexts[..])
      {
        assert c.scratch[..n + 1] == c.scratch[..n] + [c.scratch[n]];
        MinusBoth(n0.scratch, multiset(c.scratch[..n]), multiset{c.scratch[n]});
        native := native.(scratch := native.scratch - multiset{c.scratch[n]});
        n := n + 1;
      }
      assert c.scratch[..|c.scratch|] == c.scratch;
      contexts[i] := c.(scratch := []);
    }

    /** Give back slot i's charge. */
    method Discharge(i: nat)
      requires i < contexts.Length
      modifies this`reserved, contexts
      ensures contexts[..] == old(contexts[..])[i := old(contexts[i]).(charged := 0)]
      ensures reserved == Minus(old(reserved), old(contexts[i]).charged)
    {
      reserved := Minus(reserved, contexts[i].charged);
      contexts[i] := contexts[i].(charged := 0);
    }

    /** The first three loops. */
    method DropHeld(i: nat, env: Env)
      requires i < contexts.Length
      modifies this`native, contexts, deferred
      ensures var c, cs := old(contexts[i]), old(contexts[..])[i := old(contexts[i]).(held := [])];
              contexts[..] == old(contexts[..])[i := c.(held := [], scratch := [])] &&
              deferred[..] == Sweep(cs, old(deferred[..]), env) &&
              native == Dropped(old(native), c, cs, old(deferred[..]), env)
    {
      ghost var c, cs := contexts[i], contexts[..];
      DropReferences(contexts[i].held);
      contexts[i] := contexts[i].(held := []);
      SweepDeferred(env);
      DestroyScratch(i);
      Twice(cs, i, c.(held := []), c.(held := [], scratch := []));
    }

    method ReleaseHolds(i: nat, env: Env)
      requires Valid() && i < contexts.Length
      modifies this`reserved, this`native, contexts, deferred
      ensures Now() == Ownership.ReleaseHolds(old(Now()), i, env)
    {
      ghost var st := Now();
      DropHeld(i, env);
      Discharge(i);
      Twice(st.contexts, i, st.contexts[i].(held := [], scratch := []), Drop(st.contexts[i]));
      Released(st, i, env);
    }

    // ---- the preflight ----

    method TakeHandle(i: nat, shared: nat, handle: word, env: Env, ghost stand: Stand) returns (ok: bool)
      requires Valid() && i < contexts.Length && stand.Valid() && stand.i == i && stand.ok(Slot(i), contexts[..]) &&
               RangesOk(resources[..])
      modifies this`reserved, this`native, contexts
      ensures stand.ok(Slot(i), contexts[..])
      ensures var l := Ownership.AddHandle(old(Slot(i)), resources[..], shared, handle, env);
              ok == l.ok && Slot(i) == l.(ok := true)
    {
      ghost var l, now := Slot(i), contexts[..];
      ok := AddHandle(i, shared, handle, env);
      StandHandle(stand, l, now, resources[..], shared, handle, env, Slot(i), contexts[..]);
    }

    method TakeRecord(i: nat, shared: nat, r: Record, env: Env, ghost stand: Stand) returns (ok: bool)
      requires Valid() && i < contexts.Length && stand.Valid() && stand.i == i && stand.ok(Slot(i), contexts[..]) &&
               RangesOk(resources[..])
      modifies this`reserved, this`native, contexts
      ensures stand.ok(Slot(i), contexts[..])
      ensures Agree(Slot(i).(ok := ok), AddRecord(old(Slot(i)), resources[..], shared, r, env))
    {
      if r.Operation() == 7 { return false; }
      ok := TakeHandle(i, shared, Low(r), env, stand);
      if ok && TwoHandles(r) {
        ok := TakeHandle(i, shared, High(r), env, stand);
      }
    }

    /** The record at r of a body. */
    method TakeNext(i: nat, shared: nat, side: seq<word>, r: nat, env: Env, ghost stand: Stand,
        ghost w: Quest) returns (ok: bool)
      requires Valid() && i < contexts.Length && stand.Valid() && stand.i == i && stand.ok(Slot(i), contexts[..]) &&
               RangesOk(resources[..])
      requires w.InBody(resources[..], shared, env) && w.side == side && w.rest(Slot(i), r)
      requires r + 5 <= w.hi && side[r] != 0 && side[r] % 2 == 1
      modifies this`reserved, this`native, contexts
      ensures stand.ok(Slot(i), contexts[..]) && if ok then w.rest(Slot(i), r + 5) else !w.goal.ok
    {
      ghost var l := Slot(i);
      ok := TakeRecord(i, shared, RecordAt(side, r), env, stand);
      BodyNext(w, resources[..], shared, env, l, r, Slot(i).(ok := ok));
    }

    /** The records of the relocation body lo..hi. */
    method TakeRecords(i: nat, shared: nat, side: seq<word>, lo: nat, hi: nat, env: Env,
        ghost stand: Stand) returns (ok: bool)
      requires Valid() && i < contexts.Length && stand.Valid() && stand.i == i && stand.ok(Slot(i), contexts[..]) &&
               RangesOk(resources[..])
      requires lo <= hi <= |side|
      modifies this`reserved, this`native, contexts
      ensures stand.ok(Slot(i), contexts[..])
      ensures Agree(Slot(i).(ok := ok), TakeBody(old(Slot(i)), resources[..], shared, side[lo..hi], env))
    {
      ghost var w := BodyQuest(Slot(i), resources[..], shared, side, lo, hi, env);
      var r := lo;
      while r < hi
        invariant r <= hi && stand.ok(Slot(i), contexts[..]) && w.rest(Slot(i), r)
      {
        BodyEnd(w, resources[..], shared, env, Slot(i), r);
        if side[r] == 0 {
          ok := AllZero(side[r..hi]);
          return;
        }
        if hi - r < 5 || side[r] % 2 != 1 { return false; }
        ok := TakeNext(i, shared, side, r, env, stand, w);
        if !ok { return; }
        r := r + 5;
      }
      BodyEnd(w, resources[..], shared, env, Slot(i), r);
      ok := true;
    }

    /** The block at t. */
    method TakeBlock(i: nat, shared: nat, side: seq<word>, t: nat, size: nat, env: Env, ghost stand: Stand,
        ghost w: Quest) returns (ok: bool)
      requires Valid() && i < contexts.Length && stand.Valid() && stand.i == i && stand.ok(Slot(i), contexts[..]) &&
               RangesOk(resources[..])
      requires w.InTail(resources[..], shared, env) && w.side == side && w.rest(Slot(i), t)
      requires t < |side| && side[t] != TERMINAL && 2 <= size == side[t] / 0x1_0000 <= |side| - t
      modifies this`reserved, this`native, contexts
      ensures stand.ok(Slot(i), contexts[..]) && if ok then w.rest(Slot(i), t + size) else !w.goal.ok
    {
      ghost var l := Slot(i);
      ok := true;
      if side[t] % 0x1_0000 == RELOCATIONS {
        if size < 3 { ok := false; } else { ok := TakeRecords(i, shared, side, t + 3, t + size, env, stand); }
      }
      TailNext(w, resources[..], shared, env, l, t, Slot(i).(ok := ok));
    }

    /** The whole sideband, from the first token to the terminal one. */
    method Walk(i: nat, shared: nat, side: seq<word>, env: Env, ghost stand: Stand) returns (acquired: bool)
      requires Valid() && i < contexts.Length && stand.Valid() && stand.i == i && stand.ok(Slot(i), contexts[..]) &&
               RangesOk(resources[..])
      requires |side| >= 4
      modifies this`reserved, this`native, contexts
      ensures stand.ok(Slot(i), contexts[..])
      ensures Agree(Slot(i).(ok := acquired), TakeTail(old(Slot(i)), resources[..], shared, side[4..], env))
    {
      ghost var w := TailQuest(Slot(i), resources[..], shared, side, env);
      var t := 4;
      while t < |side|
        invariant stand.ok(Slot(i), contexts[..]) && w.rest(Slot(i), t)
      {
        var size := side[t] / 0x1_0000;
        if side[t] == TERMINAL || size < 2 || size > |side| - t {
          TailEnd(w, resources[..], shared, env, Slot(i), t);
          acquired := side[t] == TERMINAL && t + 2 == |side|;
          return;
        }
        acquired := TakeBlock(i, shared, side, t, size, env, stand, w);
        if !acquired { return; }
        t := t + size;
      }
      TailEnd(w, resources[..], shared, env, Slot(i), t);
      acquired := false;
    }

    /** The data buffers of the native context. */
    method TakeBuffers(i: nat, buffers: seq<nat>, env: Env, ghost stand: Stand) returns (ok: bool)
      requires Valid() && i < contexts.Length && stand.Valid() && stand.i == i && stand.ok(Slot(i), contexts[..])
      modifies this`reserved, this`native, contexts
      ensures stand.ok(Slot(i), contexts[..])
      ensures Agree(Slot(i).(ok := ok), AddBuffers(old(Slot(i)), buffers, env))
    {
      ghost var goal := AddBuffers(Slot(i), buffers, env);
      var k := 0;
      ok := true;
      assert buffers[0..] == buffers;
      while ok && k < |buffers|
        invariant 0 <= k <= |buffers| && stand.ok(Slot(i), contexts[..])
        invariant if ok then Agree(goal, AddBuffers(Slot(i), buffers[k..], env)) else !goal.ok
      {
        if buffers[k] != 0 { ok := TakeBuffer(i, buffers[k], env, stand, buffers[k..], goal); }
        assert buffers[k..][1..] == buffers[k + 1..];
        k := k + 1;
      }
    }

    method TakeBuffer(i: nat, obj: nat, env: Env, ghost stand: Stand, ghost todo: seq<nat>,
        ghost goal: Local) returns (ok: bool)
      requires Valid() && i < contexts.Length && stand.Valid() && stand.i == i && stand.ok(Slot(i), contexts[..])
      requires todo != [] && obj == todo[0] != 0 && Agree(goal, AddBuffers(Slot(i), todo, env))
      modifies this`reserved, this`native, contexts
      ensures stand.ok(Slot(i), contexts[..])
      ensures if ok then Agree(goal, AddBuffers(Slot(i), todo[1..], env)) else !goal.ok
    {
      ghost var l, now := Slot(i), contexts[..];
      ok := AddHold(i, obj, None, env);
      StandHold(stand, l, now, obj, env, Slot(i), contexts[..]);
    }

    /** Everything a batch needs, for the slot it was given. */
    method Gather(i: nat, q: Request, env: Env, ghost stand: Stand) returns (acquired: bool)
      requires Valid() && i < contexts.Length && stand.Valid() && stand.i == i && stand.ok(Slot(i), contexts[..]) &&
               RangesOk(resources[..])
      requires |q.side| >= 6
      modifies this`reserved, this`native, contexts
      ensures stand.ok(Slot(i), contexts[..])
      ensures Agree(Slot(i).(ok := acquired),
              Ownership.Gather(old(Slot(i)).(ok := |q.buffers| <= 16), resources[..], q, env))
    {
      GatherParts(Slot(i), resources[..], q, env);
      if |q.buffers| > 16 { return false; }
      acquired := TakeBuffers(i, q.buffers, env, stand);
      if acquired {
        acquired := Walk(i, q.shared, q.side, env, stand);
      }
    }

    /** The slot for this context, occupying an empty one if need be. */
    method Occupy(io: nat) returns (i: nat)
      requires Valid() && io != 0
      modifies this`native, contexts
      ensures i == SlotFor(old(contexts[..]), io)
      ensures Now() == if i < contexts.Length then Ownership.Occupy(old(Now()), i, io) else old(Now())
    {
      i := FindSlot(io);
      if i < contexts.Length {
        assert contexts[..][i].io == io;
        return;
      }
      i := FindSlot(0);
      if i < contexts.Length {
        contexts[i] := contexts[i].(io := io);
        native := native.(ios := native.ios + multiset{io});
      }
    }

    /** The scratch charge, or a refusal. */
    method ScratchCharge(scratch: seq<Scratch>) returns (ok: bool, charge: nat)
      ensures ok <==> Bytes(scratch) <= BUDGET
      ensures ok ==> charge == Bytes(scratch)
    {
      charge := 0;
      var k := 0;
      while k < |scratch|
        invariant 0 <= k <= |scratch| && charge == Bytes(scratch[..k]) <= BUDGET
      {
        assert scratch[..k + 1][..k] == scratch[..k];
        if scratch[k].bytes > BUDGET - charge {
          BytesPrefix(scratch, k + 1);
          return false, charge;
        }
        charge := charge + scratch[k].bytes;
        k := k + 1;
      }
      assert scratch[..|scratch|] == scratch;
      ok := true;
    }

    /** Charge the scratch, borrow it, and take every hold the batch needs. */
    method Acquire(i: nat, q: Request, charge: nat, env: Env, ghost l: Local) returns (acquired: bool)
      requires Valid() && i < contexts.Length && RangesOk(resources[..]) && |q.side| >= 6
      requires contexts[i] == EMPTY.(io := q.io, busy := true) && charge == Bytes(q.scratch) &&
               reserved + charge <= BUDGET
      requires l == Ownership.Gather(Local(Starting(q.io, q.scratch), reserved + charge, native, |q.buffers| <= 16),
               resources[..], q, env)
      modifies this`reserved, this`native, contexts
      ensures Built(Starting(q.io, q.scratch), old(native), Slot(i)) && reserved == old(reserved) + contexts[i].charged
      ensures contexts[..] == old(contexts[..])[i := contexts[i]] && Agree(Slot(i).(ok := acquired), l)
    {
      ghost var c, cs := Starting(q.io, q.scratch), contexts[..];
      reserved := reserved + charge;
      contexts[i] := contexts[i].(charged := charge, scratch := q.scratch);
      assert contexts[i] == c;
      BuiltNothing(c, Slot(i));
      ghost var cs1 := contexts[..];
      ghost var stand := StandAt(i, cs1, c, native, Slot(i));
      acquired := Gather(i, q, env, stand);
      StandHolds(stand, Slot(i), contexts[..]);
      Twice(cs, i, c, contexts[i]);
    }

    /** The reject path: the scratch stays the caller's. */
    method Reject(i: nat, env: Env, ghost st1: State)
      requires Valid() && i < contexts.Length == |st1.contexts| && Now() == Install(st1, i, Slot(i))
      modifies this`reserved, this`native, contexts, deferred
      ensures Now() == Ownership.Reject(st1, i, old(Slot(i)), env)
    {
      ghost var l := Slot(i);
      contexts[i] := contexts[i].(scratch := []);
      Twice(st1.contexts, i, l.c, l.c.(scratch := []));
      assert Now() == Install(st1, i, l.(c := l.c.(scratch := [])));
      ReleaseHolds(i, env);
      contexts[i] := contexts[i].(busy := false);
    }

    /** The executor's first lock section. What it needs of the tables is part of the invariant every
        run keeps. */
    method Execute(q: Request, env: Env) returns (reply: Reply)
      requires Valid() && SlotsOk(contexts[..]) && RangesOk(resources[..]) && reserved <= BUDGET
      modifies this`reserved, this`native, contexts, deferred
      ensures (Now(), reply) == Begin(old(Now()), q, env)
    {
      if !WellFormed(q) { return Refused; }
      ghost var st := Now();
      var f := FindSlot(q.io);
      if f < contexts.Length && contexts[f].failed { return Unavailable(contexts[f].error); }
      if f < contexts.Length && contexts[f].busy { return Unavailable(BUSY); }
      var i := Occupy(q.io);
      if i == contexts.Length { return Unavailable(BUSY); }
      ghost var st1 := Now();
      ghost var l := Preflight(st1, i, q, env);
      FreeSlot(st, q.io, i);
      BeginUnfolds(st, q, env, i, st1, l);
      var ok, charge := ScratchCharge(q.scratch);
      if !ok || charge > BUDGET - reserved {
        contexts[i] := contexts[i].(busy := false);
        return Unaffordable;
      }
      reply := Commit(i, q, charge, env, st1, l);
    }

    /** The rest of the section, for a slot that is free and a charge that fits. */
    method Commit(i: nat, q: Request, charge: nat, env: Env, ghost st1: State, ghost l: Local) returns (reply: Reply)
      requires Valid() && i < contexts.Length && RangesOk(resources[..]) && |q.side| >= 6 && Now() == st1
      requires contexts[i] == EMPTY.(io := q.io) && charge == Bytes(q.scratch) && reserved + charge <= BUDGET
      requires l == Preflight(st1, i, q, env)
      modifies this`reserved, this`native, contexts, deferred
      ensures (Now(), reply) == if l.ok then (Install(st1, i, l.(c := l.c.(activity := true))), Accepted(i))
                                else (Ownership.Reject(st1, i, l, env), Rejected)
    {
      PreflightStarts(st1, i, q, env);
      contexts[i] := contexts[i].(busy := true);
      ghost var c := contexts[i];
      var acquired := Acquire(i, q, charge, env, l);
      Twice(st1.contexts, i, c, contexts[i]);
      if acquired {
        Accept(i, st1);
        reply := Accepted(i);
      } else {
        SameReject(st1, i, q, env, Slot(i), l);
        Reject(i, env, st1);
        reply := Rejected;
      }
    }

    method Accept(i: nat, ghost st1: State)
      requires Valid() && i < contexts.Length == |st1.contexts| && Now() == Install(st1, i, Slot(i))
      modifies contexts
      ensures Now() == Install(st1, i, old(Slot(i)).(c := old(contexts[i]).(activity := true)))
    {
      ghost var c := contexts[i];
      contexts[i] := contexts[i].(activity := true);
      Twice(st1.contexts, i, c, c.(activity := true));
    }

    // ---- after the device ----

    /** A fence that was seen to pass. */
    method Complete(i: nat, env: Env) returns (release: nat)
      requires Valid() && i < contexts.Length
      modifies this`reserved, this`native, contexts, deferred
      ensures (Now(), release) == Ownership.Complete(old(Now()), i, env)
    {
      ReleaseHolds(i, env);
      ghost var cs := contexts[..];
      contexts[i] := contexts[i].(busy := false, activity := false);
      release := 0;
      if contexts[i].released {
        release := contexts[i].io;
        Twice(cs, i, contexts[i], EMPTY);
        contexts[i] := EMPTY;
      }
    }

    /** A batch that was lost; `error` is what the slot reports from now on. */
    method Fail(i: nat, result: int, device: word, finish: int) returns (error: int)
      requires Valid() && i < contexts.Length
      modifies contexts
      ensures error == FirstError(result, device, finish) && Now() == Ownership.Fail(old(Now()), i, error)
    {
      error := result;
      if error == 0 { error := if device != 0 then Signed(device) else finish; }
      if error == 0 { error := FAILURE; }
      contexts[i] := contexts[i].(busy := false, failed := true, error := error, recovering := true);
    }

    /** The recovery thread's lock section. */
    method Recover(i: nat, drained: bool, env: Env) returns (release: nat, end: bool)
      requires Valid() && i < contexts.Length
      modifies this`reserved, this`native, contexts, deferred
      ensures (Now(), release, end) == if drained then Drained(old(Now()), i, env)
              else (GiveUp(old(Now()), i), 0, false)
    {
      release, end := 0, false;
      if drained { ReleaseHolds(i, env); }
      contexts[i] := contexts[i].(recovering := false);
      if drained && contexts[i].released {
        release, end := contexts[i].io, contexts[i].activity;
        contexts[i] := EMPTY;
      }
    }

    method ReleaseContext(io: nat) returns (extra: nat, end: bool)
      requires Valid()
      modifies contexts
      ensures (Now(), extra, end) == ContextRelease(old(Now()), io)
    {
      var i := FindSlot(io);
      extra, end := 0, false;
      if i == contexts.Length { return; }
      ghost var cs := contexts[..];
      contexts[i] := contexts[i].(released := true);
      var c := contexts[i];
      if !c.busy && !c.recovering && |c.held| == 0 && |c.scratch| == 0 {
        extra, end := c.io, c.activity;
        contexts[i] := EMPTY;
        Twice(cs, i, c, EMPTY);
      }
    }

    method Error(io: nat) returns (error: int)
      requires Valid()
      ensures error == ContextError(contexts[..], io)
    {
      var i := FindSlot(io);
      if i == contexts.Length { return 0; }
      error := if contexts[i].failed then contexts[i].error else if contexts[i].busy then BUSY else 0;
    }
  }
}
