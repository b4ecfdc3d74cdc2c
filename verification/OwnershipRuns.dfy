/** Every interleaving of the lock sections, with the native calls between them as the
    environment's moves, and what all of them keep. */
module OwnershipRuns {
  import opened Words
  import opened Ownership
  import opened OwnershipBooks

  // ---- the machine ----

  /** Where a thread is between two lock sections: its batch is with the device, it is about to
      start a recovery thread, or it is the recovery thread, draining. */
  datatype Stage = Submitted | Spawning | Draining

  /** A thread outside the lock, with the slot pointer it keeps and what it was accepted with. */
  datatype Pc = Pc(slot: nat, io: nat, stage: Stage, held: seq<Hold>, scratch: seq<Scratch>)

  datatype World = World(
    st: State, threads: map<nat, Pc>,
    loose: multiset<Scratch>,  // scratch buffers owned by callers
    owedIos: multiset<nat>,    // native contexts a thread is about to release
    transactions: nat,         // xpc_transaction_begin - xpc_transaction_end
    owedEnds: nat,             // transactions a thread is about to end
    unconfirmed: set<nat>)     // slots whose failed batch was never seen to finish

  datatype Step =
    | CreateResource(obj: nat, shared: nat, handle: word, input: Option<Input>)
    | ReleaseResource(obj: nat)
    | Deallocate(self: bool, range: Deferred)
    | NewScratch(buffer: Scratch)
    | DestroyScratch(buffer: Scratch)
    | Execute(tid: nat, q: Request, env: Env)
    | Finish(tid: nat, env: Env)
    | Lose(tid: nat, result: int, device: word, finish: int)
    | Spawn(tid: nat, started: bool)
    | Drain(tid: nat, drained: bool, env: Env)
    | ReleaseContext(io: nat)
    | DropIo(io: nat)
    | EndTransaction

  predicate Running(w: World, tid: nat, stage: Stage) {
    tid in w.threads && w.threads[tid].stage == stage && w.threads[tid].slot < |w.st.contexts|
  }

  /** What the environment may do. A live object's address is not handed out again, and a batch
      brings scratch its caller owns. */
  predicate Enabled(w: World, s: Step) {
    match s
    case CreateResource(obj, _, _, _) => obj != 0 && FirstObject(w.st.resources, obj) == |w.st.resources|
    case NewScratch(_) => true
    case DestroyScratch(buffer) => buffer in w.loose
    case Execute(tid, q, _) => tid !in w.threads && multiset(q.scratch) <= w.loose
    case Finish(tid, _) => Running(w, tid, Submitted)
    case Lose(tid, result, device, finish) => Running(w, tid, Submitted) && !(result == 0 && device == 0 && finish == 0)
    case Spawn(tid, _) => Running(w, tid, Spawning)
    case Drain(tid, _, _) => Running(w, tid, Draining)
    case DropIo(io) => io in w.owedIos
    case EndTransaction => w.owedEnds > 0 && w.transactions > 0
    case _ => true
  }

  /** A native context to release, if any. */
  function Owed(io: nat): multiset<nat> { if io != 0 then multiset{io} else multiset{} }

  function Executed(w: World, tid: nat, q: Request, env: Env): World {
    var (st, reply) := Begin(w.st, q, env);
    match reply
    case Accepted(slot) =>
      if slot >= |st.contexts| then w.(st := st)
      else
        w.(st := st, loose := w.loose - multiset(q.scratch), transactions := w.transactions + 1,
           threads := w.threads[tid := Pc(slot, q.io, Submitted, st.contexts[slot].held, st.contexts[slot].scratch)])
    case _ => w.(st := st)
  }

  function Finished(w: World, tid: nat, env: Env): World
    requires Running(w, tid, Submitted)
  {
    var (st, io) := Complete(w.st, w.threads[tid].slot, env);
    w.(st := st, threads := w.threads - {tid}, owedIos := w.owedIos + Owed(io), owedEnds := w.owedEnds + 1)
  }

  function Lost(w: World, tid: nat, error: int): World
    requires Running(w, tid, Submitted)
  {
    var p := w.threads[tid];
    w.(st := Fail(w.st, p.slot, error), threads := w.threads[tid := p.(stage := Spawning)],
       unconfirmed := w.unconfirmed + {p.slot})
  }

  function Spawned(w: World, tid: nat, started: bool): World
    requires Running(w, tid, Spawning)
  {
    var p := w.threads[tid];
    if started then w.(threads := w.threads[tid := p.(stage := Draining)])
    else w.(st := GiveUp(w.st, p.slot), threads := w.threads - {tid})
  }

  function Recovered(w: World, tid: nat, drained: bool, env: Env): World
    requires Running(w, tid, Draining)
  {
    var p := w.threads[tid];
    if drained then
      var (st, io, end) := Drained(w.st, p.slot, env);
      w.(st := st, threads := w.threads - {tid}, owedIos := w.owedIos + Owed(io),
         owedEnds := w.owedEnds + (if end then 1 else 0), unconfirmed := w.unconfirmed - {p.slot})
    else w.(st := GiveUp(w.st, p.slot), threads := w.threads - {tid})
  }

  function Let(w: World, io: nat): World {
    var (st, extra, end) := ContextRelease(w.st, io);
    var i := Find(w.st.contexts, io);
    w.(st := st, owedIos := w.owedIos + Owed(extra), owedEnds := w.owedEnds + (if end then 1 else 0),
       unconfirmed := if i < |w.st.contexts| && Spent(w.st.contexts[i]) then w.unconfirmed - {i} else w.unconfirmed)
  }

  function Next(w: World, s: Step): World {
    if !Enabled(w, s) then w
    else
      match s
      case CreateResource(obj, shared, handle, input) => w.(st := Create(w.st, Describe(obj, shared, handle, input)))
      case ReleaseResource(obj) => w.(st := ResourceRelease(w.st, obj))
      case Deallocate(self, range) => w.(st := VmDeallocate(w.st, self, range).0)
      case NewScratch(b) => w.(st := w.st.(native := w.st.native.(scratch := w.st.native.scratch + multiset{b})),
                               loose := w.loose + multiset{b})
      case DestroyScratch(b) => w.(st := w.st.(native := w.st.native.(scratch := w.st.native.scratch - multiset{b})),
                                   loose := w.loose - multiset{b})
      case Execute(tid, q, env) => Executed(w, tid, q, env)
      case Finish(tid, env) => Finished(w, tid, env)
      case Lose(tid, result, device, finish) => Lost(w, tid, FirstError(result, device, finish))
      case Spawn(tid, started) => Spawned(w, tid, started)
      case Drain(tid, drained, env) => Recovered(w, tid, drained, env)
      case ReleaseContext(io) => Let(w, io)
      case DropIo(io) => w.(st := w.st.(native := w.st.native.(ios := w.st.native.ios - multiset{io})),
                            owedIos := w.owedIos - multiset{io})
      case EndTransaction => w.(transactions := w.transactions - 1, owedEnds := w.owedEnds - 1)
  }

  function Run(w: World, steps: seq<Step>): World
    decreases |steps|
  {
    if steps == [] then w else Run(Next(w, steps[0]), steps[1..])
  }

  const NO_NATIVE := Native(multiset{}, multiset{}, multiset{}, multiset{}, multiset{}, multiset{}, {}, multiset{})

  const INIT := World(
    State(seq(RESOURCES, _ => NO_RESOURCE), seq(CONTEXTS, _ => EMPTY), seq(DEFERRED, _ => NOTHING), 0, NO_NATIVE),
    map[], multiset{}, multiset{}, 0, 0, {})

  // ---- what every step keeps ----

  /** One slot: empty, idle, submitted, or failed. */
  predicate SlotOk(c: Context) {
    (c.io == 0 ==> c == EMPTY) &&
    (!c.busy && !c.failed ==> c == EMPTY.(io := c.io)) &&
    (c.busy ==> c.activity && !c.failed && !c.recovering) &&
    (c.recovering ==> c.failed) &&
    (c.failed <==> c.error != 0) && (c.failed ==> c.activity) &&
    (c.held == [] && c.scratch == [] ==> c.charged == 0) &&
    HoldsOk(c.held) && |c.scratch| <= SCRATCH
  }

  predicate SlotsOk(cs: seq<Context>) {
    forall k :: 0 <= k < |cs| ==> SlotOk(cs[k])
  }

  predicate IosDistinct(cs: seq<Context>) {
    forall j, k :: 0 <= j < k < |cs| && cs[j].io != 0 ==> cs[j].io != cs[k].io
  }

  predicate ThreadOk(p: Pc, cs: seq<Context>) {
    p.slot < |cs| && p.io != 0 && cs[p.slot].io == p.io && cs[p.slot].held == p.held &&
        cs[p.slot].scratch == p.scratch &&
    (if p.stage == Submitted then cs[p.slot].busy else cs[p.slot].recovering)
  }

  /** A slot pointer used outside the lock still denotes the context it was taken for, holding what
      was accepted; no two threads share a slot; and every busy or recovering slot has its thread. */
  ghost predicate ThreadsOk(threads: map<nat, Pc>, cs: seq<Context>) {
    (forall t :: t in threads ==> ThreadOk(threads[t], cs)) &&
    (forall t, u :: t in threads && u in threads && t != u ==> threads[t].slot != threads[u].slot) &&
    (forall k :: 0 <= k < |cs| && (cs[k].busy || cs[k].recovering) ==> Manned(threads, k))
  }

  ghost predicate Manned(threads: map<nat, Pc>, k: nat) {
    exists t :: t in threads && threads[t].slot == k
  }

  /** A failed slot whose completion was confirmed holds nothing any more. */
  predicate ConfirmedOk(unconfirmed: set<nat>, cs: seq<Context>) {
    forall k :: 0 <= k < |cs| ==> Confirmed(unconfirmed, k, cs[k])
  }

  predicate Confirmed(unconfirmed: set<nat>, k: nat, c: Context) {
    (k in unconfirmed ==> c.failed) &&
    (c.failed && k !in unconfirmed ==> c.held == [] && c.scratch == [] && !c.recovering)
  }

  /** The deferred ranges, each once, and each for a reason. */
  predicate DeferredOk(cs: seq<Context>, ds: seq<Deferred>, stuck: set<Deferred>) {
    (forall j :: 0 <= j < |ds| && ds[j].bytes != 0 ==> ds[j].address + ds[j].bytes < LIMIT) &&
    (forall j :: 0 <= j < |ds| && ds[j].bytes != 0 ==> HeldRange(cs, ds[j]) || ds[j] in stuck) &&
    (forall j, k :: 0 <= j < k < |ds| && ds[j].bytes != 0 ==> ds[j] != ds[k])
  }

  function Entries(ds: seq<Deferred>): multiset<Deferred> {
    if ds == [] then multiset{} else (if ds[0].bytes != 0 then multiset{ds[0]} else multiset{}) + Entries(ds[1..])
  }

  function Catalogued(rs: seq<Resource>): multiset<nat> {
    if rs == [] then multiset{} else One(rs[0].surface) + Catalogued(rs[1..])
  }

  // What one slot contributes to each account.
  function ChargeOf(): Context -> nat { (c: Context) => c.charged }
  function ActiveOf(): Context -> nat { (c: Context) => if c.activity then 1 else 0 }
  function ObjectsOf(): Context -> multiset<nat> { (c: Context) => Objects(c.held) }
  function SurfacesOf(): Context -> multiset<nat> { (c: Context) => Surfaces(c.held) }
  function IosOf(): Context -> multiset<nat> { (c: Context) => Owed(c.io) }
  function ScratchOf(): Context -> multiset<Scratch> { (c: Context) => multiset(c.scratch) }

  /** An account: everything taken and not given back is with some slot, or elsewhere. */
  predicate Even<T>(f: Context -> multiset<T>, cs: seq<Context>, taken: multiset<T>, elsewhere: multiset<T>) {
    taken == Bag(f, cs) + elsewhere
  }

  predicate EvenCount(f: Context -> nat, cs: seq<Context>, taken: nat, elsewhere: nat) {
    taken == Sum(f, cs) + elsewhere
  }

  predicate HoldBooks(cs: seq<Context>, n: Native, catalogued: multiset<nat>) {
    Even(ObjectsOf(), cs, n.objects, multiset{}) && Even(SurfacesOf(), cs, n.uses, multiset{}) &&
    Even(SurfacesOf(), cs, n.surfaces, catalogued)
  }

  predicate CountBooks(cs: seq<Context>, reserved: nat, transactions: nat, owedEnds: nat) {
    EvenCount(ChargeOf(), cs, reserved, 0) && reserved <= BUDGET && EvenCount(ActiveOf(), cs, transactions, owedEnds)
  }

  /** The reserved bytes are the slots' charges, within the budget; every transaction begun is
      active in a slot or about to be ended; every reference, use count, scratch buffer and native
      context taken is with a slot, the catalogue, a caller, or a thread about to drop it; every
      deferred range was unmapped or is still in the table. */
  predicate BooksOk(w: World) {
    var n, cs := w.st.native, w.st.contexts;
    CountBooks(cs, w.st.reserved, w.transactions, w.owedEnds) && HoldBooks(cs, n, Catalogued(w.st.resources)) &&
    Even(IosOf(), cs, n.ios, w.owedIos) && Even(ScratchOf(), cs, n.scratch, w.loose) &&
    n.deferrals == n.unmapped + Entries(w.st.deferred)
  }

  predicate CatalogueOk(rs: seq<Resource>) {
    RangesOk(rs) && (forall j :: 0 <= j < |rs| && rs[j].obj == 0 ==> rs[j] == NO_RESOURCE) &&
    forall j, k :: 0 <= j < k < |rs| && rs[j].obj != 0 ==> rs[j].obj != rs[k].obj
  }

  ghost predicate Inv(w: World) {
    w.st.Sized() && SlotsOk(w.st.contexts) && IosDistinct(w.st.contexts) && CatalogueOk(w.st.resources) &&
    ThreadsOk(w.threads, w.st.contexts) && ConfirmedOk(w.unconfirmed, w.st.contexts) &&
    DeferredOk(w.st.contexts, w.st.deferred, w.st.native.stuck) && BooksOk(w)
  }

  // ---- accounts ----

  lemma EvenSame<T>(f: Context -> multiset<T>, cs: seq<Context>, i: nat, c: Context, taken: multiset<T>,
      elsewhere: multiset<T>)
    requires i < |cs| && Even(f, cs, taken, elsewhere) && f(c) == f(cs[i])
    ensures Even(f, cs[i := c], taken, elsewhere)
  {
    BagUpdate(f, cs, i, c);
    Cancel(Bag(f, cs[i := c]), Bag(f, cs), f(c));
  }

  lemma Cancel<T>(a: multiset<T>, b: multiset<T>, x: multiset<T>)
    requires a + x == b + x
    ensures a == b
  {
    assert a == (a + x) - x && b == (b + x) - x;
  }

  /** Slot i gives back everything it had. */
  lemma EvenDrop<T>(f: Context -> multiset<T>, cs: seq<Context>, i: nat, c: Context, taken: multiset<T>,
      elsewhere: multiset<T>)
    requires i < |cs| && Even(f, cs, taken, elsewhere) && f(c) == multiset{}
    ensures Even(f, cs[i := c], taken - f(cs[i]), elsewhere)
  {
    BagUpdate(f, cs, i, c);
    var a, b, x := Bag(f, cs[i := c]), Bag(f, cs), f(cs[i]);
    assert a == b - x by { assert a == (a + x) - x; assert b + multiset{} == b; }
    assert (b + elsewhere) - x == (b - x) + elsewhere;
  }

  /** Slot i takes d more. */
  lemma EvenTake<T>(f: Context -> multiset<T>, cs: seq<Context>, i: nat, c: Context, taken: multiset<T>,
      elsewhere: multiset<T>, d: multiset<T>)
    requires i < |cs| && Even(f, cs, taken, elsewhere) && f(cs[i]) == multiset{} && f(c) == d
    ensures Even(f, cs[i := c], taken + d, elsewhere)
    ensures d <= elsewhere ==> Even(f, cs[i := c], taken, elsewhere - d)
  {
    BagUpdate(f, cs, i, c);
    var a, b := Bag(f, cs[i := c]), Bag(f, cs);
    assert a == b + d by { assert a + multiset{} == a; }
    assert (b + elsewhere) + d == (b + d) + elsewhere;
    if d <= elsewhere { assert (b + d) + (elsewhere - d) == b + elsewhere; }
  }

  /** Slot i hands what it had to someone else. */
  lemma EvenHand<T>(f: Context -> multiset<T>, cs: seq<Context>, i: nat, c: Context, taken: multiset<T>,
      elsewhere: multiset<T>)
    requires i < |cs| && Even(f, cs, taken, elsewhere) && f(c) == multiset{}
    ensures Even(f, cs[i := c], taken, elsewhere + f(cs[i]))
  {
    BagUpdate(f, cs, i, c);
    var a, b, x := Bag(f, cs[i := c]), Bag(f, cs), f(cs[i]);
    assert b + elsewhere == a + (elsewhere + x) by { assert b + multiset{} == b; }
  }

  lemma CountChange(f: Context -> nat, cs: seq<Context>, i: nat, c: Context, taken: nat, elsewhere: nat)
    requires i < |cs| && EvenCount(f, cs, taken, elsewhere)
    ensures f(cs[i]) <= taken && EvenCount(f, cs[i := c], taken - f(cs[i]) + f(c), elsewhere)
    ensures f(c) <= f(cs[i]) ==> EvenCount(f, cs[i := c], taken, elsewhere + (f(cs[i]) - f(c)))
  {
    SumUpdate(f, cs, i, c);
  }
}
