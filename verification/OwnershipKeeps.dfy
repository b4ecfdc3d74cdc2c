/** Every step keeps the invariant, so every run does. */
module OwnershipKeeps {
  import opened Words
  import opened Seqs
  import opened Ownership
  import opened OwnershipBooks
  import opened OwnershipRuns
  import opened OwnershipSlots

  // ---- dropping a slot's holds ----

  /** Slot i drops everything and becomes c. */
  function Settle(st: State, i: nat, c: Context, env: Env): State
    requires i < |st.contexts|
  {
    var before, cs, n := st.contexts[i], st.contexts[i := c], st.native;
    State(st.resources, cs, Sweep(cs, st.deferred, env), Minus(st.reserved, before.charged),
          n.(objects := n.objects - Objects(before.held), uses := n.uses - Surfaces(before.held),
             surfaces := n.surfaces - Surfaces(before.held), unmapped := n.unmapped + Swept(cs, st.deferred, env),
             stuck := n.stuck + Refusals(cs, st.deferred, env), scratch := n.scratch - multiset(before.scratch)))
  }

  lemma SettleAgain(st: State, i: nat, a: Context, b: Context, env: Env)
    requires i < |st.contexts| && a.held == b.held
    ensures var st1 := Settle(st, i, a, env); st1.(contexts := st1.contexts[i := b]) == Settle(st, i, b, env)
  {
    SweepDependsOnHolds(st.contexts, i, a, b, st.deferred, env);
    Twice(st.contexts, i, a, b);
  }

  /** What a slot is after its batch is known to have finished. */
  function Over(c: Context): Context {
    if c.released then EMPTY else Drop(c).(busy := false, activity := false)
  }

  function Idle(c: Context): Context {
    if c.released then EMPTY else Drop(c).(recovering := false)
  }

  lemma CompleteSettles(st: State, i: nat, env: Env)
    requires i < |st.contexts|
    ensures Complete(st, i, env) == (Settle(st, i, Over(st.contexts[i]), env),
            if st.contexts[i].released then st.contexts[i].io else 0)
  {
    SettleAgain(st, i, Drop(st.contexts[i]), Over(st.contexts[i]), env);
  }

  lemma DrainSettles(st: State, i: nat, env: Env)
    requires i < |st.contexts|
    ensures var c := st.contexts[i];
            Drained(st, i, env)
            == (Settle(st, i, Idle(c), env), if c.released then c.io else 0, c.released && c.activity)
  {
    var c := st.contexts[i];
    SettleAgain(st, i, Drop(c), Drop(c).(recovering := false), env);
    SettleAgain(st, i, Drop(c).(recovering := false), Idle(c), env);
  }

  /** The books after slot i settles. */
  lemma SettleBooks(w: World, i: nat, c: Context, env: Env, owedIos: multiset<nat>, owedEnds: nat)
    requires BooksOk(w) && i < |w.st.contexts|
    requires c.held == [] && c.scratch == [] && c.charged == 0
    requires var b := w.st.contexts[i];
             (c.io == b.io && owedIos == w.owedIos) || (c.io == 0 && owedIos == w.owedIos + Owed(b.io))
    requires owedEnds == w.owedEnds + (ActiveOf()(w.st.contexts[i]) - ActiveOf()(c)) &&
             (c.activity ==> w.st.contexts[i].activity)
    ensures BooksOk(w.(st := Settle(w.st, i, c, env), owedIos := owedIos, owedEnds := owedEnds))
  {
    var cs, n := w.st.contexts, w.st.native;
    SettleCounts(cs, i, c, w.st.reserved, w.transactions, w.owedEnds);
    SettleHolds(cs, i, c, n, Settle(w.st, i, c, env).native, Catalogued(w.st.resources));
    EvenDrop(ScratchOf(), cs, i, c, n.scratch, w.loose);
    SettleIos(cs, i, c, n.ios, w.owedIos, owedIos);
    SettleDeferred(cs[i := c], w.st.deferred, n.deferrals, n.unmapped, env);
  }

  lemma SettleCounts(cs: seq<Context>, i: nat, c: Context, reserved: nat, transactions: nat, owedEnds: nat)
    requires i < |cs| && CountBooks(cs, reserved, transactions, owedEnds) && c.charged == 0 &&
             (c.activity ==> cs[i].activity)
    ensures CountBooks(cs[i := c], Minus(reserved, cs[i].charged), transactions,
            owedEnds + (ActiveOf()(cs[i]) - ActiveOf()(c)))
  {
    CountChange(ChargeOf(), cs, i, c, reserved, 0);
    CountChange(ActiveOf(), cs, i, c, transactions, owedEnds);
  }

  lemma SettleHolds(cs: seq<Context>, i: nat, c: Context, n: Native, n': Native, catalogued: multiset<nat>)
    requires i < |cs| && HoldBooks(cs, n, catalogued) && c.held == []
    requires n'.objects == n.objects - Objects(cs[i].held) && n'.uses == n.uses - Surfaces(cs[i].held)
    requires n'.surfaces == n.surfaces - Surfaces(cs[i].held)
    ensures HoldBooks(cs[i := c], n', catalogued)
  {
    EvenDrop(ObjectsOf(), cs, i, c, n.objects, multiset{});
    EvenDrop(SurfacesOf(), cs, i, c, n.uses, multiset{});
    EvenDrop(SurfacesOf(), cs, i, c, n.surfaces, catalogued);
  }

  lemma SettleIos(cs: seq<Context>, i: nat, c: Context, taken: multiset<nat>, owed: multiset<nat>, owed': multiset<nat>)
    requires i < |cs| && Even(IosOf(), cs, taken, owed)
    requires (c.io == cs[i].io && owed' == owed) || (c.io == 0 && owed' == owed + Owed(cs[i].io))
    ensures Even(IosOf(), cs[i := c], taken, owed')
  {
    if c.io == cs[i].io {
      EvenSame(IosOf(), cs, i, c, taken, owed);
      assert c.io == 0 ==> owed + Owed(0) == owed;
    } else {
      EvenHand(IosOf(), cs, i, c, taken, owed);
    }
  }

  lemma SettleDeferred(cs: seq<Context>, ds: seq<Deferred>, deferrals: multiset<Deferred>,
      unmapped: multiset<Deferred>, env: Env)
    requires deferrals == unmapped + Entries(ds)
    ensures deferrals == (unmapped + Swept(cs, ds, env)) + Entries(Sweep(cs, ds, env))
  {
    SweptEntries(cs, ds, env);
    Move(deferrals, unmapped, Entries(ds), Entries(Sweep(cs, ds, env)), Swept(cs, ds, env));
  }

  lemma Move<T>(d: multiset<T>, u: multiset<T>, e: multiset<T>, e': multiset<T>, s: multiset<T>)
    requires d == u + e && e == e' + s
    ensures d == (u + s) + e'
  {
  }

  /** The rest of the invariant after slot i settles and its thread is done. */
  lemma SettleKeeps(w: World, i: nat, c: Context, env: Env, tid: nat, owedIos: multiset<nat>, owedEnds: nat,
      unconfirmed: set<nat>)
    requires Inv(w) && i < |w.st.contexts| && tid in w.threads && w.threads[tid].slot == i
    requires SlotOk(c) && c.held == [] && c.scratch == [] && !c.busy && !c.recovering &&
             (c.io == w.st.contexts[i].io || c.io == 0)
    requires unconfirmed - {i} == w.unconfirmed - {i} && Confirmed(unconfirmed, i, c)
    requires c.charged == 0 && (c.activity ==> w.st.contexts[i].activity)
    requires owedEnds == w.owedEnds + (ActiveOf()(w.st.contexts[i]) - ActiveOf()(c))
    requires owedIos == if c.io == w.st.contexts[i].io then w.owedIos else w.owedIos + Owed(w.st.contexts[i].io)
    ensures Inv(w.(st := Settle(w.st, i, c, env), threads := w.threads - {tid}, owedIos := owedIos,
            owedEnds := owedEnds,
                   unconfirmed := unconfirmed))
  {
    var cs := w.st.contexts;
    SettleBooks(w, i, c, env, owedIos, owedEnds);
    SlotsChange(cs, i, c);
    IosKeep(cs, i, c);
    ThreadsStop(w.threads, tid, cs, c);
    DeferredSwept(cs, cs[i := c], w.st.deferred, w.st.native.stuck, env);
    ConfirmedChange(w.unconfirmed, unconfirmed, cs, i, c);
  }

  lemma ConfirmedChange(u: set<nat>, u': set<nat>, cs: seq<Context>, i: nat, c: Context)
    requires i < |cs| && ConfirmedOk(u, cs) && u' - {i} == u - {i} && Confirmed(u', i, c)
    ensures ConfirmedOk(u', cs[i := c])
  {
    var cs' := cs[i := c];
    forall k | 0 <= k < |cs'| ensures Confirmed(u', k, cs'[k]) {
      if k != i {
        assert Confirmed(u, k, cs[k]);
        assert k in u' <==> k in u' - {i};
        assert k in u <==> k in u - {i};
      }
    }
  }

  lemma FinishKeeps(w: World, tid: nat, env: Env)
    requires Inv(w) && Running(w, tid, Submitted)
    ensures Inv(Finished(w, tid, env))
  {
    var i := w.threads[tid].slot;
    var c := w.st.contexts[i];
    assert ThreadOk(w.threads[tid], w.st.contexts) && SlotOk(c) && Confirmed(w.unconfirmed, i, c);
    CompleteSettles(w.st, i, env);
    var owedIos := w.owedIos + Owed(if c.released then c.io else 0);
    assert !c.released ==> owedIos == w.owedIos;
    SettleKeeps(w, i, Over(c), env, tid, owedIos, w.owedEnds + 1, w.unconfirmed);
  }

  /** The world after a successful drain. */
  function Quiet(w: World, tid: nat, i: nat, c: Context, env: Env): World
    requires i < |w.st.contexts|
  {
    w.(st := Settle(w.st, i, Idle(c), env), threads := w.threads - {tid},
       owedIos := if c.released then w.owedIos + Owed(c.io) else w.owedIos,
       owedEnds := w.owedEnds + (if c.released && c.activity then 1 else 0), unconfirmed := w.unconfirmed - {i})
  }

  lemma DrainIs(w: World, tid: nat, env: Env)
    requires Running(w, tid, Draining)
    ensures var i := w.threads[tid].slot; Recovered(w, tid, true, env) == Quiet(w, tid, i, w.st.contexts[i], env)
  {
    DrainSettles(w.st, w.threads[tid].slot, env);
    assert w.owedIos + Owed(0) == w.owedIos;
  }

  lemma DrainKeeps(w: World, tid: nat, env: Env)
    requires Inv(w) && Running(w, tid, Draining)
    ensures Inv(Recovered(w, tid, true, env))
  {
    DrainIs(w, tid, env);
    QuietKeeps(w, tid, w.threads[tid].slot, env);
  }

  lemma QuietKeeps(w: World, tid: nat, i: nat, env: Env)
    requires Inv(w) && Running(w, tid, Draining) && i == w.threads[tid].slot
    ensures Inv(Quiet(w, tid, i, w.st.contexts[i], env))
  {
    var c := w.st.contexts[i];
    IdleOk(w, tid, c);
    var owedIos := if c.released then w.owedIos + Owed(c.io) else w.owedIos;
    var owedEnds := w.owedEnds + (if c.released && c.activity then 1 else 0);
    SettleKeeps(w, i, Idle(c), env, tid, owedIos, owedEnds, w.unconfirmed - {i});
  }

  lemma IdleOk(w: World, tid: nat, c: Context)
    requires Inv(w) && Running(w, tid, Draining) && c == w.st.contexts[w.threads[tid].slot]
    ensures SlotOk(Idle(c)) && c.activity && !Idle(c).busy && !Idle(c).recovering
    ensures forall u: set<nat>, i: nat :: i !in u ==> Confirmed(u, i, Idle(c))
  {
    assert ThreadOk(w.threads[tid], w.st.contexts) && SlotOk(c);
  }

  // ---- steps that keep a slot's holds ----

  /** A slot that keeps its holds, scratch, charge, activity and native context. */
  predicate SameUse(c: Context, c': Context) {
    c'.io == c.io && c'.held == c.held && c'.scratch == c.scratch && c'.charged == c.charged &&
        c'.activity == c.activity
  }

  lemma FlagBooks(w: World, i: nat, c: Context)
    requires BooksOk(w) && i < |w.st.contexts| && SameUse(w.st.contexts[i], c)
    ensures BooksOk(w.(st := w.st.(contexts := w.st.contexts[i := c])))
  {
    var cs, n := w.st.contexts, w.st.native;
    CountChange(ChargeOf(), cs, i, c, w.st.reserved, 0);
    CountChange(ActiveOf(), cs, i, c, w.transactions, w.owedEnds);
    EvenSame(ObjectsOf(), cs, i, c, n.objects, multiset{});
    EvenSame(SurfacesOf(), cs, i, c, n.uses, multiset{});
    EvenSame(SurfacesOf(), cs, i, c, n.surfaces, Catalogued(w.st.resources));
    EvenSame(ScratchOf(), cs, i, c, n.scratch, w.loose);
    EvenSame(IosOf(), cs, i, c, n.ios, w.owedIos);
  }

  /** Only flags of slot i change. */
  lemma FlagKeeps(w: World, i: nat, c: Context, threads: map<nat, Pc>, unconfirmed: set<nat>)
    requires Inv(w) && i < |w.st.contexts| && SameUse(w.st.contexts[i], c) && SlotOk(c)
    requires unconfirmed - {i} == w.unconfirmed - {i} && Confirmed(unconfirmed, i, c)
    requires ThreadsOk(threads, w.st.contexts[i := c])
    ensures Inv(w.(st := w.st.(contexts := w.st.contexts[i := c]), threads := threads, unconfirmed := unconfirmed))
  {
    var cs := w.st.contexts;
    SlotsChange(cs, i, c);
    IosKeep(cs, i, c);
    DeferredKeep(cs, i, c, w.st.deferred, w.st.native.stuck);
    ConfirmedChange(w.unconfirmed, unconfirmed, cs, i, c);
    FlagBooks(w, i, c);
  }

  lemma LoseKeeps(w: World, tid: nat, error: int)
    requires Inv(w) && Running(w, tid, Submitted) && error != 0
    ensures Inv(Lost(w, tid, error))
  {
    var p := w.threads[tid];
    var i, cs := p.slot, w.st.contexts;
    var c := cs[i].(busy := false, failed := true, error := error, recovering := true);
    assert ThreadOk(p, cs) && SlotOk(cs[i]) && Confirmed(w.unconfirmed, i, cs[i]);
    ThreadsStage(w.threads, tid, cs, c, Spawning);
    FlagKeeps(w, i, c, w.threads[tid := p.(stage := Spawning)], w.unconfirmed + {i});
  }

  lemma SpawnKeeps(w: World, tid: nat, started: bool)
    requires Inv(w) && Running(w, tid, Spawning)
    ensures Inv(Spawned(w, tid, started))
  {
    var p := w.threads[tid];
    var i, cs := p.slot, w.st.contexts;
    assert ThreadOk(p, cs) && SlotOk(cs[i]) && Confirmed(w.unconfirmed, i, cs[i]);
    if started {
      ThreadsStage(w.threads, tid, cs, cs[i], Draining);
      assert cs[i := cs[i]] == cs;
    } else {
      GiveUpKeeps(w, tid);
    }
  }

  lemma GiveUpKeeps(w: World, tid: nat)
    requires Inv(w) && tid in w.threads && w.threads[tid].stage != Submitted
    ensures w.threads[tid].slot < |w.st.contexts|
    ensures Inv(w.(st := GiveUp(w.st, w.threads[tid].slot), threads := w.threads - {tid}))
  {
    var i, cs := w.threads[tid].slot, w.st.contexts;
    assert ThreadOk(w.threads[tid], cs) && SlotOk(cs[i]) && Confirmed(w.unconfirmed, i, cs[i]);
    var c := cs[i].(recovering := false);
    ThreadsStop(w.threads, tid, cs, c);
    FlagKeeps(w, i, c, w.threads - {tid}, w.unconfirmed);
  }

  // ---- the native owner lets go ----

  lemma VacateBooks(w: World, i: nat, owedEnds: nat)
    requires BooksOk(w) && i < |w.st.contexts|
    requires var c := w.st.contexts[i]; c.held == [] && c.scratch == [] && c.charged == 0
    requires owedEnds == w.owedEnds + ActiveOf()(w.st.contexts[i])
    ensures BooksOk(w.(st := Vacate(w.st, i), owedIos := w.owedIos + Owed(w.st.contexts[i].io), owedEnds := owedEnds))
  {
    var cs, n := w.st.contexts, w.st.native;
    CountChange(ChargeOf(), cs, i, EMPTY, w.st.reserved, 0);
    CountChange(ActiveOf(), cs, i, EMPTY, w.transactions, w.owedEnds);
    EvenSame(ObjectsOf(), cs, i, EMPTY, n.objects, multiset{});
    EvenSame(SurfacesOf(), cs, i, EMPTY, n.uses, multiset{});
    EvenSame(SurfacesOf(), cs, i, EMPTY, n.surfaces, Catalogued(w.st.resources));
    EvenSame(ScratchOf(), cs, i, EMPTY, n.scratch, w.loose);
    EvenHand(IosOf(), cs, i, EMPTY, n.ios, w.owedIos);
  }

  lemma VacateKeeps(w: World, i: nat)
    requires Inv(w) && i < |w.st.contexts| && Spent(w.st.contexts[i])
    ensures Inv(w.(st := Vacate(w.st, i), owedIos := w.owedIos + Owed(w.st.contexts[i].io),
                   owedEnds := w.owedEnds + ActiveOf()(w.st.contexts[i]), unconfirmed := w.unconfirmed - {i}))
  {
    VacateBooks(w, i, w.owedEnds + ActiveOf()(w.st.contexts[i]));
    VacateTables(w, i, w.st.contexts);
  }

  lemma VacateTables(w: World, i: nat, cs: seq<Context>)
    requires Inv(w) && cs == w.st.contexts && i < |cs| && Spent(cs[i])
    ensures var cs' := cs[i := EMPTY];
            SlotsOk(cs') && IosDistinct(cs') && ThreadsOk(w.threads, cs') &&
            DeferredOk(cs', w.st.deferred, w.st.native.stuck) && ConfirmedOk(w.unconfirmed - {i}, cs')
  {
    assert SlotOk(cs[i]);
    SlotsChange(cs, i, EMPTY);
    IosKeep(cs, i, EMPTY);
    ThreadsIdle(w.threads, cs, i, EMPTY);
    DeferredKeep(cs, i, EMPTY, w.st.deferred, w.st.native.stuck);
    ConfirmedChange(w.unconfirmed, w.unconfirmed - {i}, cs, i, EMPTY);
  }

  /** The two outcomes for a slot that is found. */
  lemma LetIs(w: World, io: nat)
    ensures var cs, i := w.st.contexts, Find(w.st.contexts, io);
            Let(w, io) ==
              if i == |cs| then w
              else if Spent(cs[i]) then
                w.(st := Vacate(w.st, i), owedIos := w.owedIos + Owed(cs[i].io),
                   owedEnds := w.owedEnds + ActiveOf()(cs[i]), unconfirmed := w.unconfirmed - {i})
              else w.(st := w.st.(contexts := cs[i := cs[i].(released := true)]))
  {
    assert w.owedIos + Owed(0) == w.owedIos;
  }

  lemma LetKeeps(w: World, io: nat)
    requires Inv(w)
    ensures Inv(Let(w, io))
  {
    var i := Find(w.st.contexts, io);
    LetIs(w, io);
    if i < |w.st.contexts| {
      if Spent(w.st.contexts[i]) { VacateKeeps(w, i); } else { FlagReleased(w, i); }
    }
  }

  lemma FlagReleased(w: World, i: nat)
    requires Inv(w) && i < |w.st.contexts| && !Spent(w.st.contexts[i])
    ensures Inv(w.(st := w.st.(contexts := w.st.contexts[i := w.st.contexts[i].(released := true)])))
  {
    var c := w.st.contexts[i];
    assert SlotOk(c) && Confirmed(w.unconfirmed, i, c);
    ThreadsKeep(w.threads, w.st.contexts, i, c.(released := true));
    FlagKeeps(w, i, c.(released := true), w.threads, w.unconfirmed);
  }

  // ---- the catalogue, deallocation and scratch ----

  lemma {:induction false} CataloguedUpdate(rs: seq<Resource>, k: nat, r: Resource)
    requires k < |rs|
    ensures Catalogued(rs[k := r]) + One(rs[k].surface) == Catalogued(rs) + One(r.surface)
    ensures One(rs[k].surface) <= Catalogued(rs)
  {
    var rest := Catalogued(rs[1..]);
    if k == 0 {
      assert rs[k := r][1..] == rs[1..];
      assert (One(r.surface) + rest) + One(rs[0].surface) == (One(rs[0].surface) + rest) + One(r.surface);
    } else {
      CataloguedUpdate(rs[1..], k - 1, r);
      assert rs[k := r][1..] == rs[1..][k - 1 := r];
      AddBoth(One(rs[0].surface), Catalogued(rs[1..][k - 1 := r]), One(rs[k].surface), rest, One(r.surface));
    }
  }

  lemma EvenMore<T>(f: Context -> multiset<T>, cs: seq<Context>, taken: multiset<T>, elsewhere: multiset<T>,
      d: multiset<T>)
    requires Even(f, cs, taken, elsewhere)
    ensures Even(f, cs, taken + d, elsewhere + d)
  {
    assert (Bag(f, cs) + elsewhere) + d == Bag(f, cs) + (elsewhere + d);
  }

  lemma EvenLess<T>(f: Context -> multiset<T>, cs: seq<Context>, taken: multiset<T>, elsewhere: multiset<T>,
      d: multiset<T>)
    requires Even(f, cs, taken, elsewhere) && d <= elsewhere
    ensures Even(f, cs, taken - d, elsewhere - d)
  {
    assert (Bag(f, cs) + elsewhere) - d == Bag(f, cs) + (elsewhere - d);
  }

  lemma CatalogueMore(rs: seq<Resource>, k: nat, r: Resource)
    requires k < |rs| && CatalogueOk(rs) && r.obj != 0 && FirstObject(rs, r.obj) == |rs|
    requires r.supported ==> r.address + r.bytes < LIMIT
    ensures CatalogueOk(rs[k := r])
  {
    forall x | x in rs[k := r] && x.supported ensures x.address + x.bytes < LIMIT {
      assert x == r || x in rs;
    }
  }

  lemma CatalogueLess(rs: seq<Resource>, k: nat)
    requires k < |rs| && CatalogueOk(rs)
    ensures CatalogueOk(rs[k := NO_RESOURCE])
  {
    forall x | x in rs[k := NO_RESOURCE] && x.supported ensures x.address + x.bytes < LIMIT {
      assert x == NO_RESOURCE || x in rs;
    }
  }

  lemma CreateKeeps(w: World, r: Resource)
    requires Inv(w) && r.obj != 0 && FirstObject(w.st.resources, r.obj) == |w.st.resources|
    requires r.supported ==> r.address + r.bytes < LIMIT
    ensures Inv(w.(st := Create(w.st, r)))
  {
    var rs, k := w.st.resources, FirstEmpty(w.st.resources);
    if k < |rs| {
      CatalogueMore(rs, k, r);
      CataloguedUpdate(rs, k, r);
      assert Catalogued(rs[k := r]) == Catalogued(rs) + One(r.surface) by {
        assert Catalogued(rs[k := r]) + multiset{} == Catalogued(rs[k := r]);
      }
      EvenMore(SurfacesOf(), w.st.contexts, w.st.native.surfaces, Catalogued(rs), One(r.surface));
    }
  }

  lemma Uncatalogued(rs: seq<Resource>, k: nat)
    requires k < |rs|
    ensures One(rs[k].surface) <= Catalogued(rs)
    ensures Catalogued(rs[k := NO_RESOURCE]) == Catalogued(rs) - One(rs[k].surface)
  {
    CataloguedUpdate(rs, k, NO_RESOURCE);
    var a, b, d := Catalogued(rs[k := NO_RESOURCE]), Catalogued(rs), One(rs[k].surface);
    assert b + multiset{} == b;
    assert a == (a + d) - d;
  }

  lemma ReleaseKeeps(w: World, obj: nat)
    requires Inv(w)
    ensures Inv(w.(st := ResourceRelease(w.st, obj)))
  {
    var rs, k := w.st.resources, FirstObject(w.st.resources, obj);
    if obj != 0 && k < |rs| {
      CatalogueLess(rs, k);
      Uncatalogued(rs, k);
      EvenLess(SurfacesOf(), w.st.contexts, w.st.native.surfaces, Catalogued(rs), One(rs[k].surface));
    }
  }

  lemma {:induction false} EntriesUpdate(ds: seq<Deferred>, k: nat, d: Deferred)
    requires k < |ds| && ds[k].bytes == 0 && d.bytes != 0
    ensures Entries(ds[k := d]) == Entries(ds) + multiset{d}
  {
    var ds' := ds[k := d];
    if k == 0 {
      assert ds'[1..] == ds[1..];
      assert multiset{d} + Entries(ds[1..]) == (multiset{} + Entries(ds[1..])) + multiset{d};
    } else {
      EntriesUpdate(ds[1..], k - 1, d);
      assert ds'[1..] == ds[1..][k - 1 := d];
      assert Entry(ds[0]) + (Entries(ds[1..]) + multiset{d}) == (Entry(ds[0]) + Entries(ds[1..])) + multiset{d};
    }
  }

  lemma DeferMore(cs: seq<Context>, ds: seq<Deferred>, stuck: set<Deferred>, k: nat, d: Deferred)
    requires DeferredOk(cs, ds, stuck) && k < |ds| && ds[k].bytes == 0 && d !in ds && HeldRange(cs, d)
    ensures d.bytes != 0 && DeferredOk(cs, ds[k := d], stuck)
  {
    var i, j :| 0 <= i < |cs| && 0 <= j < |cs[i].held| && HoldMeets(cs[i].held[j], d);
  }

  lemma DeallocateKeeps(w: World, self: bool, d: Deferred)
    requires Inv(w)
    ensures Inv(w.(st := VmDeallocate(w.st, self, d).0))
  {
    var ds, k := w.st.deferred, FirstFree(w.st.deferred);
    if self && HeldRange(w.st.contexts, d) && d !in ds && k < |ds| {
      DeferMore(w.st.contexts, ds, w.st.native.stuck, k, d);
      EntriesUpdate(ds, k, d);
      var n := w.st.native;
      assert (n.unmapped + Entries(ds)) + multiset{d} == n.unmapped + (Entries(ds) + multiset{d});
    }
  }

  lemma ScratchKeeps(w: World, b: Scratch)
    requires Inv(w)
    ensures Inv(Next(w, NewScratch(b))) && Inv(Next(w, DestroyScratch(b)))
  {
    EvenMore(ScratchOf(), w.st.contexts, w.st.native.scratch, w.loose, multiset{b});
    if b in w.loose { EvenLess(ScratchOf(), w.st.contexts, w.st.native.scratch, w.loose, multiset{b}); }
  }

  lemma DropIoKeeps(w: World, io: nat)
    requires Inv(w)
    ensures Inv(Next(w, DropIo(io)))
  {
    if io in w.owedIos { EvenLess(IosOf(), w.st.contexts, w.st.native.ios, w.owedIos, multiset{io}); }
  }

  // ---- the executor's preflight ----

  lemma OccupyKeeps(w: World, i: nat, io: nat)
    requires Inv(w) && i < |w.st.contexts| && io != 0
    requires w.st.contexts[i].io == io || (w.st.contexts[i].io == 0 && Find(w.st.contexts, io) == |w.st.contexts|)
    ensures Inv(w.(st := Occupy(w.st, i, io)))
  {
    var cs, n := w.st.contexts, w.st.native;
    if cs[i].io != io {
      var c := EMPTY.(io := io);
      assert SlotOk(cs[i]) && cs[i] == EMPTY;
      SlotsChange(cs, i, c);
      IosNew(cs, i, c);
      ThreadsIdle(w.threads, cs, i, c);
      DeferredKeep(cs, i, c, w.st.deferred, n.stuck);
      ConfirmedChange(w.unconfirmed, w.unconfirmed, cs, i, c) by { assert Confirmed(w.unconfirmed, i, cs[i]); }
      OccupyBooks(w, i, c);
    }
  }

  lemma OccupyBooks(w: World, i: nat, c: Context)
    requires BooksOk(w) && i < |w.st.contexts| && w.st.contexts[i] == EMPTY && c == EMPTY.(io := c.io) && c.io != 0
    ensures BooksOk(w.(st := w.st.(contexts := w.st.contexts[i := c],
            native := w.st.native.(ios := w.st.native.ios + multiset{c.io}))))
  {
    var cs, n := w.st.contexts, w.st.native;
    CountChange(ChargeOf(), cs, i, c, w.st.reserved, 0);
    CountChange(ActiveOf(), cs, i, c, w.transactions, w.owedEnds);
    EvenSame(ObjectsOf(), cs, i, c, n.objects, multiset{});
    EvenSame(SurfacesOf(), cs, i, c, n.uses, multiset{});
    EvenSame(SurfacesOf(), cs, i, c, n.surfaces, Catalogued(w.st.resources));
    EvenSame(ScratchOf(), cs, i, c, n.scratch, w.loose);
    EvenTake(IosOf(), cs, i, c, n.ios, w.owedIos, multiset{c.io});
  }

  /** One pass over the deferred table, with no slot changed. */
  function SweptOnly(st: State, env: Env): State {
    st.(deferred := Sweep(st.contexts, st.deferred, env),
        native := st.native.(unmapped := st.native.unmapped + Swept(st.contexts, st.deferred, env),
                             stuck := st.native.stuck + Refusals(st.contexts, st.deferred, env)))
  }

  lemma SweptOnlyKeeps(w: World, env: Env)
    requires Inv(w)
    ensures Inv(w.(st := SweptOnly(w.st, env)))
  {
    DeferredSwept(w.st.contexts, w.st.contexts, w.st.deferred, w.st.native.stuck, env);
    SettleDeferred(w.st.contexts, w.st.deferred, w.st.native.deferrals, w.st.native.unmapped, env);
  }

  lemma Undone(n: Native, held: seq<Hold>)
    ensures var m := Holding(n, held);
            n == m.(objects := m.objects - Objects(held), uses := m.uses - Surfaces(held),
                surfaces := m.surfaces - Surfaces(held))
  {
  }

  /** A rejected batch leaves no hold, charge or borrowed scratch behind: all that differs from
      before is the sweep of the deferred table. */
  lemma RejectLeavesNothing(st: State, i: nat, q: Request, env: Env, l: Local)
    requires i < |st.contexts| && st.contexts[i] == EMPTY.(io := q.io) && RangesOk(st.resources)
    requires st.reserved + Bytes(q.scratch) <= BUDGET && l == Preflight(st, i, q, env)
    ensures Reject(st, i, l, env) == SweptOnly(st, env)
  {
    PreflightBuilds(st, i, q, env, l);
    RejectBuilt(st, i, q.io, q.scratch, env, l);
  }

  lemma RejectBuilt(st: State, i: nat, io: nat, scratch: seq<Scratch>, env: Env, l: Local)
    requires i < |st.contexts| && st.contexts[i] == EMPTY.(io := io)
    requires Built(Starting(io, scratch), st.native, l) && l.reserved == st.reserved + l.c.charged
    ensures Reject(st, i, l, env) == SweptOnly(st, env)
  {
    var c := l.c.(scratch := []);
    var st1 := Install(st, i, l.(c := c));
    SettleAgain(st1, i, Drop(c), Drop(c).(busy := false), env);
    assert Drop(c).(busy := false) == EMPTY.(io := io);
    Twice(st.contexts, i, c, EMPTY.(io := io));
    assert st1.contexts[i := EMPTY.(io := io)] == st.contexts;
    Undone(st.native, c.held);
    assert st.native.scratch - multiset(c.scratch) == st.native.scratch;
  }

  /** The slot of an accepted batch. */
  lemma AcceptBooks(w: World, i: nat, q: Request, l: Local)
    requires BooksOk(w) && i < |w.st.contexts| && w.st.contexts[i] == EMPTY.(io := q.io)
    requires Built(Starting(q.io, q.scratch), w.st.native, l) && l.reserved == w.st.reserved + l.c.charged
    requires multiset(q.scratch) <= w.loose
    ensures BooksOk(w.(st := Install(w.st, i, l.(c := l.c.(activity := true))), loose := w.loose - multiset(q.scratch),
                       transactions := w.transactions + 1))
  {
    var cs, n, c := w.st.contexts, w.st.native, l.c.(activity := true);
    CountChange(ChargeOf(), cs, i, c, w.st.reserved, 0);
    CountChange(ActiveOf(), cs, i, c, w.transactions, w.owedEnds);
    EvenTake(ObjectsOf(), cs, i, c, n.objects, multiset{}, Objects(c.held));
    EvenTake(SurfacesOf(), cs, i, c, n.uses, multiset{}, Surfaces(c.held));
    EvenTake(SurfacesOf(), cs, i, c, n.surfaces, Catalogued(w.st.resources), Surfaces(c.held));
    EvenTake(ScratchOf(), cs, i, c, n.scratch, w.loose, multiset(q.scratch));
    EvenSame(IosOf(), cs, i, c, n.ios, w.owedIos);
  }

  lemma AcceptKeeps(w: World, i: nat, q: Request, l: Local, tid: nat)
    requires Inv(w) && i < |w.st.contexts| && w.st.contexts[i] == EMPTY.(io := q.io) && q.io != 0
    requires Built(Starting(q.io, q.scratch), w.st.native, l) && l.reserved == w.st.reserved + l.c.charged
    requires tid !in w.threads && multiset(q.scratch) <= w.loose && |q.scratch| <= SCRATCH
    ensures var c := l.c.(activity := true);
            Inv(w.(st := Install(w.st, i, l.(c := c)), loose := w.loose - multiset(q.scratch),
                transactions := w.transactions + 1,
                   threads := w.threads[tid := Pc(i, q.io, Submitted, c.held, c.scratch)]))
  {
    var cs, c := w.st.contexts, l.c.(activity := true);
    SlotsChange(cs, i, c);
    IosKeep(cs, i, c);
    ThreadsStart(w.threads, cs, i, c, tid);
    DeferredKeep(cs, i, c, w.st.deferred, w.st.native.stuck);
    ConfirmedChange(w.unconfirmed, w.unconfirmed, cs, i, c) by { assert Confirmed(w.unconfirmed, i, cs[i]); }
    AcceptBooks(w, i, q, l);
  }

  /** The request has a slot nobody works in. */
  predicate Free(cs: seq<Context>, io: nat) {
    var i := SlotFor(cs, io);
    i < |cs| && !(cs[i].io == io && (cs[i].failed || cs[i].busy))
  }

  /** That slot. */
  lemma SlotIdle(w: World, q: Request)
    requires Inv(w) && q.io != 0 && Free(w.st.contexts, q.io)
    ensures var i := SlotFor(w.st.contexts, q.io);
            (w.st.contexts[i].io == q.io || (w.st.contexts[i].io == 0 &&
                Find(w.st.contexts, q.io) == |w.st.contexts|)) &&
            Occupy(w.st, i, q.io).contexts[i] == EMPTY.(io := q.io)
  {
    assert SlotOk(w.st.contexts[SlotFor(w.st.contexts, q.io)]);
  }

  /** The executor's first lock section, once there is a free slot. */
  lemma BeginUnfolds(st: State, q: Request, env: Env, i: nat, st1: State, l: Local)
    requires WellFormed(q) && Free(st.contexts, q.io) && i == SlotFor(st.contexts, q.io)
    requires st1 == Occupy(st, i, q.io) && l == Preflight(st1, i, q, env)
    ensures Begin(st, q, env) ==
              if Bytes(q.scratch) + st.reserved > BUDGET then
                  (st1.(contexts := st1.contexts[i := st1.contexts[i].(busy := false)]), Unaffordable)
              else if l.ok then (Install(st1, i, l.(c := l.c.(activity := true))), Accepted(i))
              else (Reject(st1, i, l, env), Rejected)
  {
  }

  lemma BeginIs(w: World, q: Request, env: Env, i: nat, st1: State, l: Local)
    requires Inv(w) && WellFormed(q) && Free(w.st.contexts, q.io) && i == SlotFor(w.st.contexts, q.io)
    requires st1 == Occupy(w.st, i, q.io) && l == Preflight(st1, i, q, env)
    ensures Begin(w.st, q, env) ==
              if Bytes(q.scratch) + w.st.reserved > BUDGET then (st1, Unaffordable)
              else if l.ok then (Install(st1, i, l.(c := l.c.(activity := true))), Accepted(i))
              else (SweptOnly(st1, env), Rejected)
  {
    SlotIdle(w, q);
    BeginUnfolds(w.st, q, env, i, st1, l);
    assert st1.contexts[i := st1.contexts[i].(busy := false)] == st1.contexts;
    if Bytes(q.scratch) + w.st.reserved <= BUDGET && !l.ok { RejectLeavesNothing(st1, i, q, env, l); }
  }

  lemma ExecuteKeeps(w: World, tid: nat, q: Request, env: Env)
    requires Inv(w) && tid !in w.threads && multiset(q.scratch) <= w.loose
    ensures Inv(Executed(w, tid, q, env))
  {
    if WellFormed(q) && Free(w.st.contexts, q.io) {
      var i, st1, l := Begun(w, q, env);
      OccupyKeeps(w, i, q.io);
      BegunKeeps(w, w.(st := st1), i, tid, q, env);
    } else {
      NotBegun(w, q, env);
      ExecutedRefused(w, tid, q, env, w.st, Begin(w.st, q, env).1);
    }
  }

  lemma BegunKeeps(w: World, w1: World, i: nat, tid: nat, q: Request, env: Env)
    requires Inv(w1) && WellFormed(q) && w1 == w.(st := w1.st) && w1.st.reserved == w.st.reserved
    requires i < |w1.st.contexts| && w1.st.contexts[i] == EMPTY.(io := q.io)
    requires tid !in w.threads && multiset(q.scratch) <= w.loose
    requires var l := Preflight(w1.st, i, q, env);
             Begin(w.st, q, env) ==
               if Bytes(q.scratch) + w.st.reserved > BUDGET then (w1.st, Unaffordable)
               else if l.ok then (Install(w1.st, i, l.(c := l.c.(activity := true))), Accepted(i))
               else (SweptOnly(w1.st, env), Rejected)
    ensures Inv(Executed(w, tid, q, env))
  {
    var l := Preflight(w1.st, i, q, env);
    if Bytes(q.scratch) + w.st.reserved > BUDGET {
      ExecutedRefused(w, tid, q, env, w1.st, Unaffordable);
    } else if l.ok {
      PreflightBuilds(w1.st, i, q, env, l);
      AcceptKeeps(w1, i, q, l, tid);
      ExecutedAccepted(w, tid, q, env, i, Install(w1.st, i, l.(c := l.c.(activity := true))), l.c.(activity := true));
    } else {
      SweptOnlyKeeps(w1, env);
      ExecutedRefused(w, tid, q, env, SweptOnly(w1.st, env), Rejected);
    }
  }

  /** What an execute does to the world: with any reply but acceptance, only what it does to the tables. */
  lemma ExecutedRefused(w: World, tid: nat, q: Request, env: Env, st: State, reply: Reply)
    requires Begin(w.st, q, env) == (st, reply) && !reply.Accepted?
    ensures Executed(w, tid, q, env) == w.(st := st)
  {
  }

  lemma ExecutedAccepted(w: World, tid: nat, q: Request, env: Env, i: nat, st: State, c: Context)
    requires Begin(w.st, q, env) == (st, Accepted(i)) && i < |st.contexts| && st.contexts[i] == c
    ensures Executed(w, tid, q, env)
            == w.(st := st, loose := w.loose - multiset(q.scratch), transactions := w.transactions + 1,
                  threads := w.threads[tid := Pc(i, q.io, Submitted, c.held, c.scratch)])
  {
  }

  /** Where an execute gets past the search for a slot. */
  lemma Begun(w: World, q: Request, env: Env) returns (i: nat, st1: State, l: Local)
    requires Inv(w) && WellFormed(q) && Free(w.st.contexts, q.io)
    ensures i == SlotFor(w.st.contexts, q.io) < |w.st.contexts| && st1 == Occupy(w.st, i, q.io)
    ensures l == Preflight(st1, i, q, env) && st1.contexts[i] == EMPTY.(io := q.io)
    ensures w.st.contexts[i] == EMPTY || w.st.contexts[i] == EMPTY.(io := q.io)
    ensures Begin(w.st, q, env) ==
              if Bytes(q.scratch) + w.st.reserved > BUDGET then (st1, Unaffordable)
              else if l.ok then (Install(st1, i, l.(c := l.c.(activity := true))), Accepted(i))
              else (SweptOnly(st1, env), Rejected)
  {
    i := SlotFor(w.st.contexts, q.io);
    st1 := Occupy(w.st, i, q.io);
    l := Preflight(st1, i, q, env);
    BeginIs(w, q, env, i, st1, l);
    SlotIdle(w, q);
    assert SlotOk(w.st.contexts[i]);
  }

  lemma NotBegun(w: World, q: Request, env: Env)
    requires !(WellFormed(q) && Free(w.st.contexts, q.io))
    ensures Begin(w.st, q, env).0 == w.st && !Begin(w.st, q, env).1.Accepted?
  {
  }

  // ---- every step, every run ----

  lemma CreateStep(w: World, obj: nat, shared: nat, handle: word, input: Option<Input>)
    requires Inv(w)
    ensures Inv(Next(w, CreateResource(obj, shared, handle, input)))
  {
    var s := CreateResource(obj, shared, handle, input);
    if Enabled(w, s) {
      var w' := w.(st := Create(w.st, Describe(obj, shared, handle, input)));
      assert Next(w, s) == w';
      CreateKeeps(w, Describe(obj, shared, handle, input));
    }
  }

  lemma ReleaseStep(w: World, obj: nat)
    requires Inv(w)
    ensures Inv(Next(w, ReleaseResource(obj)))
  {
    var w' := w.(st := ResourceRelease(w.st, obj));
    assert Next(w, ReleaseResource(obj)) == w';
    ReleaseKeeps(w, obj);
  }

  lemma ExecuteStep(w: World, tid: nat, q: Request, env: Env)
    requires Inv(w)
    ensures Inv(Next(w, Execute(tid, q, env)))
  {
    if Enabled(w, Execute(tid, q, env)) { ExecuteKeeps(w, tid, q, env); }
  }

  lemma ThreadStep(w: World, s: Step)
    requires Inv(w) && (s.Finish? || s.Lose? || s.Spawn?)
    ensures Inv(Next(w, s))
  {
    if Enabled(w, s) {
      match s
      case Finish(tid, env) => FinishKeeps(w, tid, env);
      case Lose(tid, result, device, finish) => LoseKeeps(w, tid, FirstError(result, device, finish));
      case Spawn(tid, started) => SpawnKeeps(w, tid, started);
    }
  }

  lemma DrainStep(w: World, tid: nat, drained: bool, env: Env)
    requires Inv(w)
    ensures Inv(Next(w, Drain(tid, drained, env)))
  {
    if Enabled(w, Drain(tid, drained, env)) {
      if drained { DrainKeeps(w, tid, env); } else { GiveUpKeeps(w, tid); }
    }
  }

  lemma DeallocateStep(w: World, self: bool, range: Deferred)
    requires Inv(w)
    ensures Inv(Next(w, Deallocate(self, range)))
  {
    DeallocateKeeps(w, self, range);
  }

  lemma LetStep(w: World, io: nat)
    requires Inv(w)
    ensures Inv(Next(w, ReleaseContext(io)))
  {
    NextLet(w, io);
    LetKeeps(w, io);
  }

  lemma NextLet(w: World, io: nat)
    ensures Next(w, ReleaseContext(io)) == Let(w, io)
  {
  }

  lemma StepKeeps(w: World, s: Step)
    requires Inv(w)
    ensures Inv(Next(w, s))
  {
    match s
    case CreateResource(obj, shared, handle, input) => CreateStep(w, obj, shared, handle, input);
    case ReleaseResource(obj) => ReleaseStep(w, obj);
    case Deallocate(self, range) => DeallocateStep(w, self, range);
    case NewScratch(b) => ScratchKeeps(w, b);
    case DestroyScratch(b) => ScratchKeeps(w, b);
    case Execute(tid, q, env) => ExecuteStep(w, tid, q, env);
    case Finish(_, _) => ThreadStep(w, s);
    case Lose(_, _, _, _) => ThreadStep(w, s);
    case Spawn(_, _) => ThreadStep(w, s);
    case Drain(tid, drained, env) => DrainStep(w, tid, drained, env);
    case ReleaseContext(io) => LetStep(w, io);
    case DropIo(io) => DropIoKeeps(w, io);
    case EndTransaction => EndKeeps(w);
  }

  lemma EndKeeps(w: World)
    requires Inv(w)
    ensures Inv(Next(w, EndTransaction))
  {
  }

  lemma InitHolds()
    ensures Inv(INIT)
  {
    InitBags(ObjectsOf(), INIT.st.contexts);
    InitBags(SurfacesOf(), INIT.st.contexts);
    InitBags(IosOf(), INIT.st.contexts);
    InitBags(ScratchOf(), INIT.st.contexts);
    InitSums(ChargeOf(), INIT.st.contexts);
    InitSums(ActiveOf(), INIT.st.contexts);
    InitCatalogue(INIT.st.resources);
    InitEntries(INIT.st.deferred);
  }

  lemma {:induction false} InitBags<T>(f: Context -> multiset<T>, cs: seq<Context>)
    requires f(EMPTY) == multiset{} && forall k :: 0 <= k < |cs| ==> cs[k] == EMPTY
    ensures Bag(f, cs) == multiset{}
  {
    if cs != [] { InitBags(f, cs[1..]); }
  }

  lemma {:induction false} InitSums(f: Context -> nat, cs: seq<Context>)
    requires f(EMPTY) == 0 && forall k :: 0 <= k < |cs| ==> cs[k] == EMPTY
    ensures Sum(f, cs) == 0
  {
    if cs != [] { InitSums(f, cs[1..]); }
  }

  lemma {:induction false} InitCatalogue(rs: seq<Resource>)
    requires forall k :: 0 <= k < |rs| ==> rs[k] == NO_RESOURCE
    ensures Catalogued(rs) == multiset{}
  {
    if rs != [] { InitCatalogue(rs[1..]); }
  }

  lemma {:induction false} InitEntries(ds: seq<Deferred>)
    requires forall k :: 0 <= k < |ds| ==> ds[k] == NOTHING
    ensures Entries(ds) == multiset{}
  {
    if ds != [] { InitEntries(ds[1..]); }
  }

  /** Whatever the threads, the callers and the kernel do, in whatever order. */
  lemma {:induction false} RunKeeps(w: World, steps: seq<Step>)
    requires Inv(w)
    ensures Inv(Run(w, steps))
    decreases |steps|
  {
    if steps != [] {
      StepKeeps(w, steps[0]);
      RunKeeps(Next(w, steps[0]), steps[1..]);
    }
  }
}
