/** How one changed slot changes each part of the invariant. */
module OwnershipSlots {
  import opened Ownership
  import opened OwnershipRuns

  // ---- slots ----

  lemma SlotsChange(cs: seq<Context>, i: nat, c: Context)
    requires i < |cs| && SlotsOk(cs) && SlotOk(c)
    ensures SlotsOk(cs[i := c])
  {
  }

  lemma IosKeep(cs: seq<Context>, i: nat, c: Context)
    requires i < |cs| && IosDistinct(cs) && (c.io == cs[i].io || c.io == 0)
    ensures IosDistinct(cs[i := c])
  {
  }

  lemma IosNew(cs: seq<Context>, i: nat, c: Context)
    requires i < |cs| && IosDistinct(cs) && Find(cs, c.io) == |cs|
    ensures IosDistinct(cs[i := c])
  {
  }

  lemma Twice(cs: seq<Context>, i: nat, a: Context, b: Context)
    requires i < |cs|
    ensures cs[i := a][i := b] == cs[i := b]
  {
  }

  // ---- held ranges ----

  lemma HeldKept(cs: seq<Context>, i: nat, c: Context, d: Deferred)
    requires i < |cs| && cs[i].held <= c.held && HeldRange(cs, d)
    ensures HeldRange(cs[i := c], d)
  {
    var j, k :| 0 <= j < |cs| && 0 <= k < |cs[j].held| && HoldMeets(cs[j].held[k], d);
    assert cs[i := c][j].held[k] == cs[j].held[k];
  }

  lemma HeldSame(cs: seq<Context>, i: nat, c: Context, d: Deferred)
    requires i < |cs| && cs[i].held == c.held
    ensures HeldRange(cs[i := c], d) <==> HeldRange(cs, d)
  {
    if HeldRange(cs, d) { HeldKept(cs, i, c, d); }
    if HeldRange(cs[i := c], d) {
      HeldKept(cs[i := c], i, cs[i], d);
      assert cs[i := c][i := cs[i]] == cs;
    }
  }

  lemma DeferredKeep(cs: seq<Context>, i: nat, c: Context, ds: seq<Deferred>, stuck: set<Deferred>)
    requires i < |cs| && cs[i].held <= c.held && DeferredOk(cs, ds, stuck)
    ensures DeferredOk(cs[i := c], ds, stuck)
  {
    forall j | 0 <= j < |ds| && ds[j].bytes != 0 ensures HeldRange(cs[i := c], ds[j]) || ds[j] in stuck {
      if HeldRange(cs, ds[j]) { HeldKept(cs, i, c, ds[j]); }
    }
  }

  /** After a sweep, what is left is held or was refused, whatever was held before. */
  lemma DeferredSwept(cs: seq<Context>, cs': seq<Context>, ds: seq<Deferred>, stuck: set<Deferred>, env: Env)
    requires DeferredOk(cs, ds, stuck)
    ensures DeferredOk(cs', Sweep(cs', ds, env), stuck + Refusals(cs', ds, env))
  {
    var out := Sweep(cs', ds, env);
    forall j | 0 <= j < |out| && out[j].bytes != 0
      ensures HeldRange(cs', out[j]) || out[j] in stuck + Refusals(cs', ds, env)
    {
      assert out[j] == ds[j] && ds[j] in ds;
    }
  }

  lemma Regroup<T>(k: multiset<T>, g: multiset<T>, kept: multiset<T>, gone: multiset<T>)
    ensures (k + g) + (kept + gone) == (k + kept) + (g + gone)
  {
  }

  function Entry(d: Deferred): multiset<Deferred> { if d.bytes != 0 then multiset{d} else multiset{} }

  /** Every entry is swept or left. */
  lemma {:induction false} SweptEntries(cs: seq<Context>, ds: seq<Deferred>, env: Env)
    ensures Entries(ds) == Entries(Sweep(cs, ds, env)) + Swept(cs, ds, env)
  {
    if ds != [] {
      var d, d', kept, gone := ds[0], Sweep(cs, ds, env)[0], Entries(Sweep(cs, ds[1..], env)), Swept(cs, ds[1..], env);
      SweptEntries(cs, ds[1..], env);
      assert Sweep(cs, ds, env)[1..] == Sweep(cs, ds[1..], env);
      var g := if Due(cs, d) && env.unmaps(d) then multiset{d} else multiset{};
      SweptOne(cs, ds, env, kept, gone);
      assert Entry(d) == Entry(d') + g;
      Regroup(Entry(d'), g, kept, gone);
    }
  }

  lemma SweptOne(cs: seq<Context>, ds: seq<Deferred>, env: Env, kept: multiset<Deferred>, gone: multiset<Deferred>)
    requires ds != [] && kept == Entries(Sweep(cs, ds, env)[1..]) && gone == Swept(cs, ds[1..], env)
    ensures Entries(ds) == Entry(ds[0]) + Entries(ds[1..]) &&
            Entries(Sweep(cs, ds, env)) == Entry(Sweep(cs, ds, env)[0]) + kept
    ensures Swept(cs, ds, env) == (if Due(cs, ds[0]) && env.unmaps(ds[0]) then multiset{ds[0]} else multiset{}) + gone
  {
  }

  predicate Alike(cs: seq<Context>, cs': seq<Context>, d: Deferred) {
    HeldRange(cs, d) <==> HeldRange(cs', d)
  }

  lemma SweepDependsOnHolds(cs: seq<Context>, i: nat, a: Context, b: Context, ds: seq<Deferred>, env: Env)
    requires i < |cs| && a.held == b.held
    ensures Sweep(cs[i := a], ds, env) == Sweep(cs[i := b], ds, env)
    ensures Swept(cs[i := a], ds, env) == Swept(cs[i := b], ds, env)
    ensures Refusals(cs[i := a], ds, env) == Refusals(cs[i := b], ds, env)
  {
    var x, y := cs[i := a], cs[i := b];
    forall d: Deferred ensures Alike(x, y, d) {
      HeldSame(x, i, b, d);
      Twice(cs, i, a, b);
    }
    SweptAgree(x, y, ds, env);
  }

  lemma {:induction false} SweptAgree(cs: seq<Context>, cs': seq<Context>, ds: seq<Deferred>, env: Env)
    requires forall d :: Alike(cs, cs', d)
    ensures Swept(cs, ds, env) == Swept(cs', ds, env)
    ensures Refusals(cs, ds, env) == Refusals(cs', ds, env) && Sweep(cs, ds, env) == Sweep(cs', ds, env)
  {
    forall d: Deferred ensures Due(cs, d) <==> Due(cs', d) { assert Alike(cs, cs', d); }
    if ds != [] { SweptAgree(cs, cs', ds[1..], env); }
  }

  // ---- threads ----

  lemma ThreadsKeep(threads: map<nat, Pc>, cs: seq<Context>, i: nat, c: Context)
    requires i < |cs| && ThreadsOk(threads, cs)
    requires c.busy == cs[i].busy && c.recovering == cs[i].recovering
    requires c.io == cs[i].io && c.held == cs[i].held && c.scratch == cs[i].scratch
    ensures ThreadsOk(threads, cs[i := c])
  {
  }

  /** A slot nobody works on. */
  lemma ThreadsIdle(threads: map<nat, Pc>, cs: seq<Context>, i: nat, c: Context)
    requires i < |cs| && ThreadsOk(threads, cs)
    requires !cs[i].busy && !cs[i].recovering && !c.busy && !c.recovering
    ensures ThreadsOk(threads, cs[i := c])
  {
  }

  lemma ThreadsStart(threads: map<nat, Pc>, cs: seq<Context>, i: nat, c: Context, tid: nat)
    requires i < |cs| && ThreadsOk(threads, cs) && tid !in threads
    requires !cs[i].busy && !cs[i].recovering && c.busy && c.io != 0
    ensures ThreadsOk(threads[tid := Pc(i, c.io, Submitted, c.held, c.scratch)], cs[i := c])
  {
    var threads' := threads[tid := Pc(i, c.io, Submitted, c.held, c.scratch)];
    MannedStays(threads, threads');
    assert threads'[tid].slot == i;
  }

  lemma MannedStays(threads: map<nat, Pc>, threads': map<nat, Pc>)
    requires forall t :: t in threads ==> t in threads' && threads'[t].slot == threads[t].slot
    ensures forall k :: Manned(threads, k) ==> Manned(threads', k)
  {
    forall k | Manned(threads, k) ensures Manned(threads', k) {
      var t :| t in threads && threads[t].slot == k;
      assert threads'[t].slot == k;
    }
  }

  lemma ThreadsStage(threads: map<nat, Pc>, tid: nat, cs: seq<Context>, c: Context, stage: Stage)
    requires tid in threads && ThreadsOk(threads, cs)
    requires var s := cs[threads[tid].slot]; c.io == s.io && c.held == s.held && c.scratch == s.scratch
    requires if stage == Submitted then c.busy else c.recovering
    ensures ThreadsOk(threads[tid := threads[tid].(stage := stage)], cs[threads[tid].slot := c])
  {
    MannedStays(threads, threads[tid := threads[tid].(stage := stage)]);
    var threads' := threads[tid := threads[tid].(stage := stage)];
    assert threads'[tid].slot == threads[tid].slot;
  }

  lemma ThreadsStop(threads: map<nat, Pc>, tid: nat, cs: seq<Context>, c: Context)
    requires tid in threads && ThreadsOk(threads, cs) && !c.busy && !c.recovering
    ensures ThreadsOk(threads - {tid}, cs[threads[tid].slot := c])
  {
    var i := threads[tid].slot;
    forall k | 0 <= k < |cs| && k != i && Manned(threads, k) ensures Manned(threads - {tid}, k) {
      var t :| t in threads && threads[t].slot == k;
      assert (threads - {tid})[t].slot == k;
    }
  }
}
