/** The lock sections of hevc_recovery.cpp, each as a function of the state the mutex protects.
    Native calls made inside a section are booked in `Native`, a ledger of references and
    mappings; what they return is the environment's choice (`Env`). */
module Ownership {
  import opened Words
  import opened Sideband

  const RESOURCES := 4096
  const CONTEXTS := 16
  const HELD := 256
  const DEFERRED := 4096
  const SCRATCH := 11
  const BUDGET := 512 * 1024 * 1024
  const FAILURE := 0xe000_02bc - 0x1_0000_0000 // int(0xe00002bcu)
  const BUSY := 0xe000_02d5 - 0x1_0000_0000
  const LIMIT := 0x1_0000_0000_0000_0000       // UINTPTR_MAX + 1

  /** Pointers are naturals and null is 0; so are missing surfaces. */
  datatype Resource = Resource(
    obj: nat, shared: nat, handle: word, address: nat, bytes: nat, surface: nat, supported: bool)

  datatype Hold = Hold(obj: nat, address: nat, bytes: nat, surface: nat)

  datatype Scratch = Scratch(resource: nat, backing: nat, bytes: nat, handle: word)

  datatype Context = Context(
    io: nat, busy: bool, failed: bool, released: bool, recovering: bool, activity: bool, error: int,
    held: seq<Hold>, scratch: seq<Scratch>, charged: nat)

  datatype Deferred = Deferred(address: nat, bytes: nat)

  const NO_RESOURCE := Resource(0, 0, 0, 0, 0, 0, false)
  const EMPTY := Context(0, false, false, false, false, false, 0, [], [], 0)
  const NOTHING := Deferred(0, 0)

  /** References taken and not yet dropped, and ranges given to the kernel. */
  datatype Native = Native(
    objects: multiset<nat>,      // CFRetain - IOAccelResourceRelease, for holds
    uses: multiset<nat>,         // IOSurfaceIncrementUseCount - IOSurfaceDecrementUseCount
    surfaces: multiset<nat>,     // CFRetain (or IOSurfaceLookup) - CFRelease, of surfaces
    ios: multiset<nat>,          // CFRetain - IOAccelVideoContextRelease, for slots
    deferrals: multiset<Deferred>,
    unmapped: multiset<Deferred>,
    stuck: set<Deferred>,        // deferred ranges whose unmap the kernel refused
    scratch: multiset<Scratch>)  // created and not destroyed

  datatype Env = Env(dataSize: nat -> nat, allocSize: nat -> nat, metaHandle: nat -> word, unmaps: Deferred -> bool)

  datatype State = State(
    resources: seq<Resource>, contexts: seq<Context>, deferred: seq<Deferred>, reserved: nat, native: Native)
  {
    predicate Sized() {
      |resources| == RESOURCES && |contexts| == CONTEXTS && |deferred| == DEFERRED
    }
  }

  // ---- ranges ----

  predicate Overlaps(a: nat, an: nat, b: nat, bn: nat) {
    an != 0 && bn != 0 && a + an < LIMIT && b + bn < LIMIT && a < b + bn && b < a + an
  }

  /** The ranges share an address. */
  ghost predicate Meets(a: nat, an: nat, b: nat, bn: nat) {
    exists x: nat :: Within(x, a, an) && Within(x, b, bn)
  }

  predicate Within(x: nat, a: nat, n: nat) { a <= x < a + n }

  /** The guards make `Overlaps` exact for ranges that end below the top of the address space, and
      blind to all others. */
  lemma OverlapsExactly(a: nat, an: nat, b: nat, bn: nat)
    ensures Overlaps(a, an, b, bn) <==> Meets(a, an, b, bn) && a + an < LIMIT && b + bn < LIMIT
  {
    if an != 0 && bn != 0 && a < b + bn && b < a + an {
      var x := if a < b then b else a;
      assert Within(x, a, an) && Within(x, b, bn);
    }
  }

  predicate HoldMeets(h: Hold, d: Deferred) {
    Overlaps(d.address, d.bytes, h.address, h.bytes)
  }

  predicate HeldRange(cs: seq<Context>, d: Deferred) {
    exists i, k :: 0 <= i < |cs| && 0 <= k < |cs[i].held| && HoldMeets(cs[i].held[k], d)
  }

  // ---- slots ----

  /** The first slot of this native context, or |cs|; null finds an empty slot. */
  function Find(cs: seq<Context>, io: nat): (i: nat)
    ensures i <= |cs| && (i < |cs| ==> cs[i].io == io)
    ensures forall k :: 0 <= k < i ==> cs[k].io != io
  {
    if cs == [] then 0
    else if cs[0].io == io then 0
    else
      var rest := cs[1..];
      var r := Find(rest, io);
      assert forall k :: 1 <= k <= r ==> cs[k] == rest[k - 1];
      1 + r
  }

  /** The first catalogue entry with this handle in this namespace. */
  function Match(rs: seq<Resource>, shared: nat, handle: word): (r: Option<Resource>)
    ensures r.Some? ==> r.value in rs && r.value.obj != 0 && r.value.shared == shared && r.value.handle == handle
  {
    if rs == [] then None
    else if rs[0].obj != 0 && rs[0].shared == shared && rs[0].handle == handle then Some(rs[0])
    else Match(rs[1..], shared, handle)
  }

  // ---- taking holds ----

  /** One slot during the preflight, with the shared counters; `ok` is the source's `acquired`. */
  datatype Local = Local(c: Context, reserved: nat, native: Native, ok: bool)

  predicate HoldsObject(held: seq<Hold>, obj: nat) {
    exists k :: 0 <= k < |held| && held[k].obj == obj
  }

  function Charge(obj: nat, r: Option<Resource>, env: Env): nat {
    var base := if r.Some? && r.value.surface != 0 then env.allocSize(r.value.surface) else env.dataSize(obj);
    if r.Some? && r.value.bytes > base then r.value.bytes else base
  }

  function NewHold(obj: nat, r: Option<Resource>): Hold {
    if r.Some? then Hold(obj, r.value.address, r.value.bytes, r.value.surface) else Hold(obj, 0, 0, 0)
  }

  function Surface(h: Hold): multiset<nat> {
    if h.surface != 0 then multiset{h.surface} else multiset{}
  }

  /** Record a hold: charge it and take the references. */
  function Take(l: Local, h: Hold, charge: nat): Local {
    Local(l.c.(held := l.c.held + [h], charged := l.c.charged + charge), l.reserved + charge,
          l.native.(objects := l.native.objects + multiset{h.obj}, uses := l.native.uses + Surface(h),
                    surfaces := l.native.surfaces + Surface(h)),
          l.ok)
  }

  function AddHold(l: Local, obj: nat, r: Option<Resource>, env: Env): (out: Local)
    ensures out.reserved - out.c.charged == l.reserved - l.c.charged && (out.ok ==> l.ok)
    ensures l.c.held <= out.c.held && out.c == l.c.(held := out.c.held, charged := out.c.charged)
  {
    if obj == 0 then l.(ok := false)
    else if HoldsObject(l.c.held, obj) then l
    else if |l.c.held| == HELD || (r.Some? && !r.value.supported) then l.(ok := false)
    else if Charge(obj, r, env) + l.reserved > BUDGET then l.(ok := false)
    else Take(l, NewHold(obj, r), Charge(obj, r, env))
  }

  predicate ScratchHas(scratch: seq<Scratch>, handle: word) {
    exists k :: 0 <= k < |scratch| && scratch[k].handle == handle
  }

  predicate HeldHas(held: seq<Hold>, handle: word, env: Env) {
    exists k :: 0 <= k < |held| && env.metaHandle(held[k].obj) == handle
  }

  function AddHandle(l: Local, resources: seq<Resource>, shared: nat, handle: word, env: Env): (out: Local)
    ensures out.reserved - out.c.charged == l.reserved - l.c.charged && (out.ok ==> l.ok)
    ensures l.c.held <= out.c.held && out.c == l.c.(held := out.c.held, charged := out.c.charged)
  {
    if handle == 0 then l.(ok := false)
    else if ScratchHas(l.c.scratch, handle) then l
    else
      match Match(resources, shared, handle)
      case Some(r) => AddHold(l, r.obj, Some(r), env)
      case None => if HeldHas(l.c.held, handle, env) then l else l.(ok := false)
  }

  function AddBuffers(l: Local, buffers: seq<nat>, env: Env): (out: Local)
    ensures out.reserved - out.c.charged == l.reserved - l.c.charged && (out.ok ==> l.ok)
    ensures l.c.held <= out.c.held && out.c == l.c.(held := out.c.held, charged := out.c.charged)
    decreases |buffers|
  {
    if buffers == [] || !l.ok then l
    else AddBuffers(if buffers[0] == 0 then l else AddHold(l, buffers[0], None, env), buffers[1..], env)
  }

  predicate TwoHandles(r: Record) {
    r.Operation() == 2 || r.Operation() == 4 || r.Operation() == 5 || r.Operation() == 6
  }

  function Low(r: Record): word { r.handles % 0x1_0000 }

  function High(r: Record): word { r.handles / 0x1_0000 }

  function AddRecord(l: Local, resources: seq<Resource>, shared: nat, r: Record, env: Env): (out: Local)
    ensures out.reserved - out.c.charged == l.reserved - l.c.charged && (out.ok ==> l.ok)
    ensures l.c.held <= out.c.held && out.c == l.c.(held := out.c.held, charged := out.c.charged)
  {
    if r.Operation() == 7 then l.(ok := false)
    else
      var l1 := AddHandle(l, resources, shared, Low(r), env);
      if l1.ok && TwoHandles(r) then AddHandle(l1, resources, shared, High(r), env) else l1
  }

  function AddRecords(l: Local, resources: seq<Resource>, shared: nat, rs: seq<Record>, env: Env): (out: Local)
    ensures out.reserved - out.c.charged == l.reserved - l.c.charged && (out.ok ==> l.ok)
    ensures l.c.held <= out.c.held && out.c == l.c.(held := out.c.held, charged := out.c.charged)
    decreases |rs|
  {
    if rs == [] || !l.ok then l
    else AddRecords(AddRecord(l, resources, shared, rs[0], env), resources, shared, rs[1..], env)
  }

  function AddBlocks(l: Local, resources: seq<Resource>, shared: nat, bs: seq<Block>, env: Env): (out: Local)
    ensures out.reserved - out.c.charged == l.reserved - l.c.charged && (out.ok ==> l.ok)
    ensures l.c.held <= out.c.held && out.c == l.c.(held := out.c.held, charged := out.c.charged)
    decreases |bs|
  {
    if bs == [] || !l.ok then l
    else AddBlocks(if bs[0].Relocs? then AddRecords(l, resources, shared, bs[0].records, env) else l,
                   resources, shared, bs[1..], env)
  }

  // ---- dropping holds ----

  function Objects(held: seq<Hold>): multiset<nat> {
    if held == [] then multiset{} else Objects(held[..|held| - 1]) + multiset{held[|held| - 1].obj}
  }

  function Surfaces(held: seq<Hold>): multiset<nat> {
    if held == [] then multiset{} else Surfaces(held[..|held| - 1]) + Surface(held[|held| - 1])
  }

  /** A deferred entry that no hold covers any more. */
  predicate Due(cs: seq<Context>, d: Deferred) {
    d.bytes != 0 && !HeldRange(cs, d)
  }

  function Sweep(cs: seq<Context>, ds: seq<Deferred>, env: Env): (out: seq<Deferred>)
    ensures |out| == |ds|
    ensures forall j :: 0 <= j < |ds| ==> out[j] == if Due(cs, ds[j]) && env.unmaps(ds[j]) then NOTHING else ds[j]
  {
    seq(|ds|, j requires 0 <= j < |ds| => if Due(cs, ds[j]) && env.unmaps(ds[j]) then NOTHING else ds[j])
  }

  /** The ranges the sweep unmaps. */
  function Swept(cs: seq<Context>, ds: seq<Deferred>, env: Env): multiset<Deferred> {
    if ds == [] then multiset{}
    else (if Due(cs, ds[0]) && env.unmaps(ds[0]) then multiset{ds[0]} else multiset{}) + Swept(cs, ds[1..], env)
  }

  function Refusals(cs: seq<Context>, ds: seq<Deferred>, env: Env): set<Deferred> {
    set d | d in ds && Due(cs, d) && !env.unmaps(d)
  }

  function Drop(c: Context): Context {
    c.(held := [], scratch := [], charged := 0)
  }

  /** Subtraction of sizes, which wraps. */
  function Minus(a: nat, b: nat): nat { if b <= a then a - b else (a - b) % LIMIT }

  /** Drop the holds of slot i, unmap what nobody holds any more, destroy its scratch. */
  function ReleaseHolds(st: State, i: nat, env: Env): State
    requires i < |st.contexts|
  {
    var c := st.contexts[i];
    var cs := st.contexts[i := Drop(c)];
    var n := st.native;
    State(st.resources, cs, Sweep(cs, st.deferred, env), Minus(st.reserved, c.charged),
          n.(objects := n.objects - Objects(c.held), uses := n.uses - Surfaces(c.held),
             surfaces := n.surfaces - Surfaces(c.held), unmapped := n.unmapped + Swept(cs, st.deferred, env),
             stuck := n.stuck + Refusals(cs, st.deferred, env), scratch := n.scratch - multiset(c.scratch)))
  }

  // ---- the catalogue ----

  /** The creation request as the hook reads it: kind, the two copies of the address, the size, and
      the surface its id resolved to (0 for none). Requests shorter than 0x60 bytes are None. */
  datatype Input = Input(kind: word, address: nat, second: nat, bytes: nat, surface: nat)

  function Describe(obj: nat, shared: nat, handle: word, input: Option<Input>): Resource {
    var none := Resource(obj, shared, handle, 0, 0, 0, false);
    match input
    case None => none
    case Some(q) =>
      if q.kind == 0x80 then
        none.(address := q.address, bytes := q.bytes,
              supported := q.address == q.second && q.address != 0 && q.bytes != 0 && q.address + q.bytes < LIMIT)
      else if q.kind == 0x82 then none.(surface := q.surface, supported := q.surface != 0)
      else none
  }

  function FirstEmpty(rs: seq<Resource>): (k: nat)
    ensures k <= |rs| && (k < |rs| ==> rs[k].obj == 0)
    ensures forall j :: 0 <= j < k ==> rs[j].obj != 0
  {
    if rs == [] || rs[0].obj == 0 then 0
    else
      var rest := rs[1..];
      var r := FirstEmpty(rest);
      assert forall j :: 1 <= j <= r ==> rs[j] == rest[j - 1];
      1 + r
  }

  function FirstObject(rs: seq<Resource>, obj: nat): (k: nat)
    ensures k <= |rs| && (k < |rs| ==> rs[k].obj == obj)
    ensures forall j :: 0 <= j < k ==> rs[j].obj != obj
  {
    if rs == [] || rs[0].obj == obj then 0
    else
      var rest := rs[1..];
      var r := FirstObject(rest, obj);
      assert forall j :: 1 <= j <= r ==> rs[j] == rest[j - 1];
      1 + r
  }

  function One(surface: nat): multiset<nat> {
    if surface != 0 then multiset{surface} else multiset{}
  }

  /** A created resource enters the first free slot; with none free it is dropped again. */
  function Create(st: State, r: Resource): State {
    var k := FirstEmpty(st.resources);
    if k == |st.resources| then st
    else st.(resources := st.resources[k := r], native := st.native.(surfaces := st.native.surfaces + One(r.surface)))
  }

  function ResourceRelease(st: State, obj: nat): State {
    var k := FirstObject(st.resources, obj);
    if obj == 0 || k == |st.resources| then st
    else st.(resources := st.resources[k := NO_RESOURCE],
             native := st.native.(surfaces := st.native.surfaces - One(st.resources[k].surface)))
  }

  // ---- deallocation ----

  datatype Unmap = Done | Shortage | Forwarded

  function FirstFree(ds: seq<Deferred>): (k: nat)
    ensures k <= |ds| && (k < |ds| ==> ds[k].bytes == 0)
    ensures forall j :: 0 <= j < k ==> ds[j].bytes != 0
  {
    if ds == [] || ds[0].bytes == 0 then 0
    else
      var rest := ds[1..];
      var r := FirstFree(rest);
      assert forall j :: 1 <= j <= r ==> ds[j] == rest[j - 1];
      1 + r
  }

  /** The deallocation hook: a held range of our own task is put off, anything else goes on. */
  function VmDeallocate(st: State, self: bool, d: Deferred): (State, Unmap) {
    if self && HeldRange(st.contexts, d) then
      if d in st.deferred then (st, Done)
      else
        var k := FirstFree(st.deferred);
        if k == |st.deferred| then (st, Shortage)
        else (st.(deferred := st.deferred[k := d],
                  native := st.native.(deferrals := st.native.deferrals + multiset{d})), Done)
    else (st, Forwarded)
  }

  // ---- the executor ----

  function ContextError(cs: seq<Context>, io: nat): int {
    var i := Find(cs, io);
    if i == |cs| then 0 else if cs[i].failed then cs[i].error else if cs[i].busy then BUSY else 0
  }

  datatype Request = Request(
    shared: nat, io: nat, pointers: bool, scratch: seq<Scratch>, side: seq<word>, buffers: seq<nat>)

  /** Return 0 without touching anything; -1 with this error; 0 with the slot kept; ready to submit. */
  datatype Reply = Refused | Unavailable(error: int) | Unaffordable | Rejected | Accepted(slot: nat)

  function Bytes(scratch: seq<Scratch>): nat {
    if scratch == [] then 0 else Bytes(scratch[..|scratch| - 1]) + scratch[|scratch| - 1].bytes
  }

  predicate WellFormed(q: Request) {
    q.shared != 0 && q.io != 0 && q.pointers && |q.scratch| <= SCRATCH && |q.side| >= 6
  }

  /** The slot a request may use: its own, or the first empty one. */
  function SlotFor(cs: seq<Context>, io: nat): (i: nat)
    ensures i <= |cs|
  {
    if Find(cs, io) < |cs| then Find(cs, io) else Find(cs, 0)
  }

  function Occupy(st: State, i: nat, io: nat): State
    requires i < |st.contexts|
  {
    if st.contexts[i].io == io then st
    else st.(contexts := st.contexts[i := st.contexts[i].(io := io)],
             native := st.native.(ios := st.native.ios + multiset{io}))
  }

  /** Everything the preflight takes on for slot i. */
  function Preflight(st: State, i: nat, q: Request, env: Env): Local
    requires i < |st.contexts|
  {
    var c := st.contexts[i].(busy := true, charged := Bytes(q.scratch), scratch := q.scratch);
    Gather(Local(c, st.reserved + Bytes(q.scratch), st.native, |q.buffers| <= 16), st.resources, q, env)
  }

  function Gather(l: Local, resources: seq<Resource>, q: Request, env: Env): (out: Local)
    ensures out.reserved - out.c.charged == l.reserved - l.c.charged && (out.ok ==> l.ok)
    ensures l.c.held <= out.c.held && out.c == l.c.(held := out.c.held, charged := out.c.charged)
  {
    var l1 := AddBuffers(l, q.buffers, env);
    match Parse(q.side)
    case None => l1.(ok := false)
    case Some(t) => AddBlocks(l1, resources, q.shared, t.blocks, env)
  }

  function Install(st: State, i: nat, l: Local): State
    requires i < |st.contexts|
  {
    st.(contexts := st.contexts[i := l.c], reserved := l.reserved, native := l.native)
  }

  /** The reject path: the scratch goes back to the caller, everything else is dropped. */
  function Reject(st: State, i: nat, l: Local, env: Env): State
    requires i < |st.contexts|
  {
    var st1 := ReleaseHolds(Install(st, i, l.(c := l.c.(scratch := []))), i, env);
    st1.(contexts := st1.contexts[i := st1.contexts[i].(busy := false)])
  }

  function Begin(st: State, q: Request, env: Env): (State, Reply) {
    if !WellFormed(q) then (st, Refused)
    else
      var i := SlotFor(st.contexts, q.io);
      if i == |st.contexts| then (st, Unavailable(BUSY))
      else if st.contexts[i].io == q.io && st.contexts[i].failed then (st, Unavailable(st.contexts[i].error))
      else if st.contexts[i].io == q.io && st.contexts[i].busy then (st, Unavailable(BUSY))
      else
        var st1 := Occupy(st, i, q.io);
        if Bytes(q.scratch) + st.reserved > BUDGET then
          (st1.(contexts := st1.contexts[i := st1.contexts[i].(busy := false)]), Unaffordable)
        else
          var l := Preflight(st1, i, q, env);
          if !l.ok then (Reject(st1, i, l, env), Rejected)
          else (Install(st1, i, l.(c := l.c.(activity := true))), Accepted(i))
  }

  /** A confirmed completion. The second result is the native context to release, 0 for none. */
  function Complete(st: State, i: nat, env: Env): (State, nat)
    requires i < |st.contexts|
  {
    var st1 := ReleaseHolds(st, i, env);
    var c := st1.contexts[i].(busy := false, activity := false);
    if c.released then (Vacate(st1, i), c.io) else (st1.(contexts := st1.contexts[i := c]), 0)
  }

  /** Clear slot i; its native reference is the caller's to drop. */
  function Vacate(st: State, i: nat): State
    requires i < |st.contexts|
  {
    st.(contexts := st.contexts[i := EMPTY])
  }

  /** The first of the three results that says something, and never 0. */
  function FirstError(result: int, device: word, finish: int): (e: int)
    ensures e != 0
    ensures result != 0 ==> e == result
  {
    var e := if result != 0 then result else if device != 0 then Signed(device) else finish;
    if e == 0 then FAILURE else e
  }

  function Signed(w: word): int { if w < 0x8000_0000 then w else w - 0x1_0000_0000 }

  function Fail(st: State, i: nat, error: int): State
    requires i < |st.contexts|
  {
    st.(contexts := st.contexts[i := st.contexts[i].(busy := false, failed := true, error := error,
        recovering := true)])
  }

  /** No recovery thread, or a drain that never succeeded. */
  function GiveUp(st: State, i: nat): State
    requires i < |st.contexts|
  {
    st.(contexts := st.contexts[i := st.contexts[i].(recovering := false)])
  }

  /** A successful full-context drain; the context to release, and whether to end a transaction. */
  function Drained(st: State, i: nat, env: Env): (State, nat, bool)
    requires i < |st.contexts|
  {
    var st1 := GiveUp(ReleaseHolds(st, i, env), i);
    var c := st1.contexts[i];
    if c.released then (Vacate(st1, i), c.io, c.activity) else (st1, 0, false)
  }

  /** Nothing of this slot is in use, as far as the slot itself tells. */
  predicate Spent(c: Context) { !c.busy && !c.recovering && c.held == [] && c.scratch == [] }

  /** The native owner lets go. */
  function ContextRelease(st: State, io: nat): (State, nat, bool) {
    var i := Find(st.contexts, io);
    if i == |st.contexts| then (st, 0, false)
    else
      var c := st.contexts[i];
      if Spent(c) then (Vacate(st, i), c.io, c.activity)
      else (st.(contexts := st.contexts[i := c.(released := true)]), 0, false)
  }

}
