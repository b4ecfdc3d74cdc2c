/** Flips as intel_framebuffer.cpp runs them against the display hardware: resources are pinned while
    they may be scanned out or while a mapping proof for them is kept. */
module Framebuffer {
  import opened Words
  import opened FlipState
  import Mapping

  const ENTRIES := 8
  const FRAMES := 0x1_0000_0000 // the frame counter register has 32 bits

  /** A kept mapping proof; r = 0 is a hole. Pointers are naturals. */
  datatype Entry = Entry(r: nat, s: nat, age: nat, proof: Mapping.Proof)

  const HOLE := Entry(0, 0, 0, Mapping.Proof(false, Mapping.Identity(0, 0, [])))

  /** The plane: the armed base with the resource it belongs to and the frame it was written in, and
      what is being scanned out. The true frame count is unbounded. */
  datatype Plane = Plane(frame: nat, surf: nat, surfR: nat, armFrame: nat, live: nat, liveR: nat)

  datatype Screen = Screen(
    flips: Flips, front: nat, pendingR: nat, frontBase: nat,
    proofs: seq<Entry>, proofAge: nat, pins: multiset<nat>, acquires: nat, releases: nat,
    lastFrame: nat, wraps: nat, start: nat, polled: nat, // frame counts at enable and at the last poll
    plane: Plane)

  // ---- pins ----

  function Pin(f: Screen, r: nat): Screen {
    f.(pins := f.pins + multiset{r}, acquires := f.acquires + 1)
  }

  function Unpin(f: Screen, r: nat): Screen {
    if r == 0 then f else f.(pins := f.pins - multiset{r}, releases := f.releases + 1)
  }

  // ---- the proof cache ----

  datatype Choice = Hit(k: nat) | Use(k: nat) | Nothing

  /** Scan from entry k on: the entry for (r, s); else the first hole, which ends the scan; else the
      oldest entry that is neither on screen nor on its way there. */
  function Scan(es: seq<Entry>, k: nat, best: Option<nat>, r: nat, s: nat, front: nat, pendingR: nat): (c: Choice)
    requires k <= |es| && (best.Some? ==> best.value < k && es[best.value].r != front && es[best.value].r != pendingR)
    ensures c.Hit? ==> c.k < |es| && es[c.k].r == r && es[c.k].s == s
    ensures c.Use? ==> c.k < |es| && (es[c.k].r == 0 || (es[c.k].r != front && es[c.k].r != pendingR))
    decreases |es| - k
  {
    if k == |es| then (if best.Some? then Use(best.value) else Nothing)
    else if es[k].r == r && es[k].s == s then Hit(k)
    else if es[k].r == 0 then Use(k)
    else
      Scan(es, k + 1,
           if es[k].r != front && es[k].r != pendingR && (best.None? || es[k].age < es[best.value].age) then Some(k)
           else best,
           r, s, front, pendingR)
  }

  /** What the scan has to know from entry k on: no hole and no entry for (r, s) before k, and `best` the
      oldest entry before k that is neither front nor pending, the first of its age. */
  predicate Scanned(es: seq<Entry>, k: nat, best: Option<nat>, r: nat, s: nat, front: nat, pendingR: nat) {
    k <= |es| && (forall j :: 0 <= j < k ==> es[j].r != 0 && !(es[j].r == r && es[j].s == s)) &&
    match best
    case None => forall j :: 0 <= j < k ==> es[j].r == front || es[j].r == pendingR
    case Some(b) =>
      b < k && es[b].r != front && es[b].r != pendingR &&
      forall j :: 0 <= j < k && es[j].r != front && es[j].r != pendingR ==>
        es[b].age <= es[j].age && (j < b ==> es[b].age < es[j].age)
  }

  lemma {:induction false} ScanFrom(es: seq<Entry>, k: nat, best: Option<nat>, r: nat, s: nat, front: nat,
      pendingR: nat)
    returns (j: nat, last: Option<nat>)
    requires Scanned(es, k, best, r, s, front, pendingR)
    ensures Scanned(es, j, last, r, s, front, pendingR)
    ensures var c := Scan(es, k, best, r, s, front, pendingR);
            if j == |es| then c == (if last.Some? then Use(last.value) else Nothing)
            else if es[j].r == r && es[j].s == s then c == Hit(j)
            else es[j].r == 0 && c == Use(j)
    decreases |es| - k
  {
    if k == |es| || (es[k].r == r && es[k].s == s) || es[k].r == 0 {
      j, last := k, best;
    } else {
      var next := if es[k].r != front && es[k].r != pendingR && (best.None? || es[k].age < es[best.value].age)
                  then Some(k) else best;
      j, last := ScanFrom(es, k + 1, next, r, s, front, pendingR);
    }
  }

  /** The choice, said on the entries. A proof is found exactly if its entry stands before the first
      hole; a hole is taken only as the first one, with no such entry before it; an entry in use is
      given up only without both, neither front nor pending, and as the oldest of those; and there is
      no choice exactly if each entry is front or pending. */
  lemma ScanIsOldest(es: seq<Entry>, r: nat, s: nat, front: nat, pendingR: nat, c: Choice)
    requires c == Scan(es, 0, None, r, s, front, pendingR)
    ensures c.Hit? ==>
              c.k < |es| && es[c.k].r == r && es[c.k].s == s &&
              (forall j :: 0 <= j < c.k ==> es[j].r != 0 && !(es[j].r == r && es[j].s == s))
    ensures !c.Hit? ==>
              (forall k :: 0 <= k < |es| && es[k].r == r && es[k].s == s ==> exists j :: 0 <= j < k && es[j].r == 0)
    ensures c.Use? ==>
              c.k < |es| && !(es[c.k].r == r && es[c.k].s == s) &&
              (forall j :: 0 <= j < c.k ==> es[j].r != 0 && !(es[j].r == r && es[j].s == s))
    ensures c.Use? && es[c.k].r != 0 ==>
              es[c.k].r != front && es[c.k].r != pendingR &&
              (forall j :: 0 <= j < |es| ==> es[j].r != 0 && !(es[j].r == r && es[j].s == s)) &&
              (forall j :: 0 <= j < |es| && es[j].r != front && es[j].r != pendingR ==>
                 es[c.k].age <= es[j].age && (j < c.k ==> es[c.k].age < es[j].age))
    ensures c.Nothing? <==>
              (forall j :: 0 <= j < |es| ==>
                 es[j].r != 0 && !(es[j].r == r && es[j].s == s) && (es[j].r == front || es[j].r == pendingR))
  {
    var j, last := ScanFrom(es, 0, None, r, s, front, pendingR);
    if j < |es| { assert es[j].r == 0 || (es[j].r == r && es[j].s == s); }
    if last.Some? { assert es[last.value].r != front; }
  }

  /** Let entry k go. */
  function Evict(f: Screen, k: nat): Screen
    requires k < |f.proofs|
  {
    Unpin(f.(proofs := f.proofs[k := f.proofs[k].(r := 0, s := 0, proof := f.proofs[k].proof.(valid := false))]),
        f.proofs[k].r)
  }

  function Wipe(f: Screen, k: nat): Screen
    requires k < |f.proofs|
  {
    var f1 := Evict(f, k);
    f1.(proofs := f1.proofs[k := f1.proofs[k].(age := 0)])
  }

  /** Drop all proofs, from entry k on. */
  function Clear(f: Screen, k: nat): (out: Screen)
    requires k <= |f.proofs|
    ensures |out.proofs| == |f.proofs| && out == f.(proofs := out.proofs, pins := out.pins, releases := out.releases)
    decreases |f.proofs| - k
  {
    if k == |f.proofs| then f else Clear(Wipe(f, k), k + 1)
  }

  function Touch(f: Screen, k: nat): Screen
    requires k < |f.proofs|
  {
    f.(proofs := f.proofs[k := f.proofs[k].(age := f.proofAge + 1)], proofAge := f.proofAge + 1)
  }

  /** Entry k takes (r, s), with a pin of its own. */
  function Fill(f: Screen, k: nat, r: nat, s: nat): Screen
    requires k < |f.proofs|
  {
    Pin(f, r).(proofs := f.proofs[k := f.proofs[k].(r := r, s := s, age := f.proofAge + 1)], proofAge := f.proofAge + 1)
  }

  /** The entry a flip of (r, s) may use, if any. `pinned` says whether the extra pin succeeds. */
  function ProofFor(f: Screen, r: nat, s: nat, optimize: bool, pinned: bool): (out: (Screen, Option<nat>))
    ensures |out.0.proofs| == |f.proofs| && (out.1.Some? ==> out.1.value < |f.proofs|)
  {
    if !optimize then (Clear(f, 0), None)
    else
      match Scan(f.proofs, 0, None, r, s, f.front, f.pendingR)
      case Nothing => (f, None)
      case Hit(k) => (Touch(f, k), Some(k))
      case Use(k) => if pinned then (Fill(Evict(f, k), k, r, s), Some(k)) else (Evict(f, k), None)
  }

  /** The kept proof for (r, s) before the first hole becomes the newest, and is used. */
  lemma ProofIsRefreshed(f: Screen, r: nat, s: nat, pinned: bool, k: nat)
    requires k < |f.proofs| && f.proofs[k].r == r && f.proofs[k].s == s
    requires forall j :: 0 <= j < k ==> f.proofs[j].r != 0 && !(f.proofs[j].r == r && f.proofs[j].s == s)
    ensures ProofFor(f, r, s, true, pinned) ==
            (f.(proofs := f.proofs[k := f.proofs[k].(age := f.proofAge + 1)], proofAge := f.proofAge + 1), Some(k))
  {
    var c := Scan(f.proofs, 0, None, r, s, f.front, f.pendingR);
    ScanIsOldest(f.proofs, r, s, f.front, f.pendingR, c);
    assert c.Hit?;
  }

  /** Without one the first hole takes (r, s), with a pin of its own if that succeeds. */
  lemma HoleIsTaken(f: Screen, r: nat, s: nat, pinned: bool, k: nat)
    requires k < |f.proofs| && f.proofs[k].r == 0 && r != 0
    requires forall j :: 0 <= j < k ==> f.proofs[j].r != 0 && !(f.proofs[j].r == r && f.proofs[j].s == s)
    ensures var (es, e, age) := (f.proofs, f.proofs[k].(proof := f.proofs[k].proof.(valid := false)), f.proofAge + 1);
            ProofFor(f, r, s, true, pinned) ==
            if pinned then
              (f.(proofs := es[k := Entry(r, s, age, e.proof)], proofAge := age, pins := f.pins + multiset{r},
                  acquires := f.acquires + 1), Some(k))
            else (f.(proofs := es[k := Entry(0, 0, e.age, e.proof)]), None)
  {
    var c := Scan(f.proofs, 0, None, r, s, f.front, f.pendingR);
    ScanIsOldest(f.proofs, r, s, f.front, f.pendingR, c);
    assert c == Use(k);
    assert Evict(f, k).proofs[k := Entry(r, s, f.proofAge + 1, f.proofs[k].proof.(valid := false))] ==
           f.proofs[k := Entry(r, s, f.proofAge + 1, f.proofs[k].proof.(valid := false))];
  }

  /** Without a hole either, the oldest entry that is neither front nor pending, the first of its age,
      gives up its pin, and its place if the new pin succeeds. */
  lemma OldestGivesUp(f: Screen, r: nat, s: nat, pinned: bool, k: nat)
    requires forall j :: 0 <= j < |f.proofs| ==> f.proofs[j].r != 0 && !(f.proofs[j].r == r && f.proofs[j].s == s)
    requires k < |f.proofs| && f.proofs[k].r != f.front && f.proofs[k].r != f.pendingR
    requires forall j :: 0 <= j < |f.proofs| && f.proofs[j].r != f.front && f.proofs[j].r != f.pendingR ==>
                           f.proofs[k].age <= f.proofs[j].age && (j < k ==> f.proofs[k].age < f.proofs[j].age)
    ensures var (es, e, age) := (f.proofs, f.proofs[k].(proof := f.proofs[k].proof.(valid := false)), f.proofAge + 1);
            ProofFor(f, r, s, true, pinned) ==
            if pinned then
              (f.(proofs := es[k := Entry(r, s, age, e.proof)], proofAge := age, releases := f.releases + 1,
                  pins := f.pins - multiset{e.r} + multiset{r}, acquires := f.acquires + 1), Some(k))
            else
              (f.(proofs := es[k := Entry(0, 0, e.age, e.proof)], releases := f.releases + 1,
                  pins := f.pins - multiset{e.r}), None)
  {
    var c := Scan(f.proofs, 0, None, r, s, f.front, f.pendingR);
    ScanIsOldest(f.proofs, r, s, f.front, f.pendingR, c);
    assert c == Use(k);
    assert Evict(f, k).proofs[k := Entry(r, s, f.proofAge + 1, f.proofs[k].proof.(valid := false))] ==
           f.proofs[k := Entry(r, s, f.proofAge + 1, f.proofs[k].proof.(valid := false))];
  }

  /** With every entry front or pending, nothing happens and no proof is used. */
  lemma NoneGivesUp(f: Screen, r: nat, s: nat, pinned: bool)
    requires forall j :: 0 <= j < |f.proofs| ==>
                           f.proofs[j].r != 0 && !(f.proofs[j].r == r && f.proofs[j].s == s) &&
                           (f.proofs[j].r == f.front || f.proofs[j].r == f.pendingR)
    ensures ProofFor(f, r, s, true, pinned) == (f, None)
  {
    ScanIsOldest(f.proofs, r, s, f.front, f.pendingR, Scan(f.proofs, 0, None, r, s, f.front, f.pendingR));
  }

  // ---- frames ----

  /** uint32_t(frame - lastFrame) */
  function Elapsed(f: Screen): nat {
    (f.plane.frame % FRAMES - f.lastFrame) % FRAMES
  }

  /** Read the frame counter and the live base. */
  function Poll(f: Screen): Screen {
    var wraps := f.wraps + Elapsed(f);
    f.(wraps := wraps, lastFrame := f.plane.frame % FRAMES, polled := f.plane.frame,
        flips := f.flips.Observe(f.plane.live, wraps))
  }

  /** The old front goes when the pending update is known to be live. */
  function FinishFlip(f: Screen): Screen {
    if !f.flips.Finishes() then f
    else Unpin(f, f.front).(flips := f.flips.Finish(), front := f.pendingR, pendingR := 0, frontBase := f.flips.base)
  }

  // ---- calls ----

  datatype Outcome = Armed | Busy | BadArgument | Unsupported | NotReady | IOError

  /** `tiles`: Armed, or what the display page table switch fails with. */
  function ArmPrimary(f: Screen, r: nat, va: nat, tiles: Outcome): (Screen, Outcome) {
    if f.flips.pending then (f, Busy)
    else if r != 0 && tiles != Armed then (f, tiles)
    else
      var f1 := Poll(f);
      (f1.(flips := f1.flips.Arm(va, r != 0, f1.wraps), pendingR := r,
           plane := f1.plane.(surf := va, surfR := r, armFrame := f1.plane.frame)), Armed)
  }

  /** A flip request: `plan` and `record` are the layout and transaction checks, `pinned` and `again`
      whether the two prepares succeed, `facts` what the mapping check reads of (r, s). */
  datatype Request = Request(
    kind: nat, r: nat, s: nat, va: nat, bytes: nat, dirty: bool, suitable: bool, pinned: bool, again: bool,
    optimize: bool, tiles: Outcome, facts: Mapping.Facts)

  function Flip(f: Screen, q: Request): (Screen, Outcome) {
    if q.kind != 1 then (f, Unsupported)
    else if f.flips.pending then (f, Busy)
    else if q.r == 0 && q.s == 0 then (if q.dirty then (f, BadArgument) else ArmPrimary(f, 0, 0, Armed))
    else if q.r == 0 || q.s == 0 || !q.suitable then (f, Unsupported)
    else if !q.pinned then (f, NotReady)
    else
      var (f1, choice) := ProofFor(Pin(f, q.r), q.r, q.s, q.optimize, q.again);
      var (good, f2) := Check(f1, q, choice);
      if !good then (Unpin(f2, q.r), Unsupported)
      else
        var (f3, outcome) := ArmPrimary(f2, q.r, q.va, q.tiles);
        if outcome == Armed then (f3, Armed) else (Unpin(f3, q.r), outcome)
  }

  /** The mapping check, with the chosen entry's proof if there is one. */
  function Check(f: Screen, q: Request, choice: Option<nat>): (bool, Screen)
    requires choice.Some? ==> choice.value < |f.proofs|
  {
    match choice
    case None => (Mapping.Proven(q.facts, q.va, q.bytes), f)
    case Some(k) =>
      var (good, proof) := Mapping.Inspected(q.facts, q.va, q.bytes, f.proofs[k].proof);
      (good, f.(proofs := f.proofs[k := f.proofs[k].(proof := proof)]))
  }

  /** The answers to a flip request whose tiles the display takes, in order: another kind is unsupported;
      busy while a flip is pending; the empty one clears the screen, or is refused as bad where something is
      left in it; half a surface, or one whose layout or transaction does not suit, is unsupported; not ready
      without a pin; and then armed exactly if the mapping check succeeds. */
  lemma FlipAnswers(f: Screen, q: Request)
    requires q.tiles == Armed
    ensures q.kind != 1 ==> Flip(f, q) == (f, Unsupported)
    ensures q.kind == 1 && f.flips.pending ==> Flip(f, q) == (f, Busy)
    ensures q.kind == 1 && !f.flips.pending && q.r == 0 && q.s == 0 ==>
              if q.dirty then Flip(f, q) == (f, BadArgument) else Flip(f, q).1 == Armed && Flip(f, q).0.plane.surf == 0
    ensures q.kind == 1 && !f.flips.pending && (q.r != 0 || q.s != 0) ==>
              (q.r == 0 || q.s == 0 || !q.suitable ==> Flip(f, q) == (f, Unsupported)) &&
              (q.r != 0 && q.s != 0 && q.suitable && !q.pinned ==> Flip(f, q) == (f, NotReady)) &&
              (q.r != 0 && q.s != 0 && q.suitable && q.pinned ==>
                 Flip(f, q).1 in {Armed, Unsupported} &&
                 (!q.optimize ==> (Flip(f, q).1 == Armed <==> Mapping.Proven(q.facts, q.va, q.bytes))) &&
                 (Flip(f, q).1 == Armed ==>
                    Flip(f, q).0.flips.pending && Flip(f, q).0.plane.surf == q.va && Flip(f, q).0.pendingR == q.r))
  {
  }

  /** Completion query. */
  function Itcm(f: Screen): (Screen, bool) {
    var f1 := FinishFlip(Poll(f));
    (f1, f1.flips.Complete())
  }

  // ---- every run ----

  /** A frame passes, and the plane latches the armed base or not; the timer polls; the accelerator
      flips and asks for completion; the owner of an unpinned resource remaps it. */
  datatype Step = Tick(latch: bool) | TimerPoll | DoFlip(q: Request) | DoItcm | Remap(maps: (nat, nat) -> Mapping.Facts)

  /** The screen, and what the mapping check would read of each resource and surface. */
  datatype World = World(f: Screen, maps: (nat, nat) -> Mapping.Facts)

  /** A mapping stays as it is while its resource is pinned. */
  ghost predicate KeepsPinned(pins: multiset<nat>, maps: (nat, nat) -> Mapping.Facts,
      maps': (nat, nat) -> Mapping.Facts) {
    forall r, s :: r in pins ==> maps'(r, s) == maps(r, s)
  }

  ghost predicate Enabled(w: World, s: Step) {
    match s
    case DoFlip(q) => q.facts == w.maps(q.r, q.s)
    case Remap(maps) => KeepsPinned(w.f.pins, w.maps, maps)
    case _ => true
  }

  function Ticked(p: Plane, latch: bool): Plane {
    var p1 := p.(frame := p.frame + 1);
    if latch then p1.(live := p.surf, liveR := p.surfR) else p1
  }

  ghost function Next(w: World, s: Step): World {
    if !Enabled(w, s) then w
    else
      match s
      case Tick(latch) => w.(f := w.f.(plane := Ticked(w.f.plane, latch)))
      case TimerPoll => w.(f := Poll(w.f))
      case DoFlip(q) => w.(f := Flip(w.f, q).0)
      case DoItcm => w.(f := Itcm(w.f).0)
      case Remap(maps) => w.(maps := maps)
  }

  ghost function Run(w: World, steps: seq<Step>): World
    decreases |steps|
  {
    if steps == [] then w else Run(Next(w, steps[0]), steps[1..])
  }

  /** Ready after enableController, with the boot picture on screen. */
  ghost predicate Starts(w: World) {
    var f := w.f;
    f.flips == NEW && f.front == 0 && f.pendingR == 0 && f.proofs == seq(ENTRIES, _ => HOLE) &&
    f.pins == multiset{} && f.acquires == f.releases && f.wraps == 0 &&
        f.start == f.polled == f.plane.frame == f.plane.armFrame &&
    f.lastFrame == f.plane.frame % FRAMES && Aligned(f.frontBase) == f.frontBase &&
    f.plane.surf == f.plane.live == f.frontBase && f.plane.surfR == f.plane.liveR == 0
  }

  // ---- what every run keeps ----

  function Ref(r: nat): multiset<nat> { if r == 0 then multiset{} else multiset{r} }

  function Refs(es: seq<Entry>): multiset<nat> {
    if es == [] then multiset{} else Ref(es[0].r) + Refs(es[1..])
  }

  /** Every pin belongs to the front, the pending update, or a proof. */
  predicate PinsOk(f: Screen, extra: multiset<nat>) {
    f.pins == Ref(f.front) + Ref(f.pendingR) + Refs(f.proofs) + extra && f.acquires == f.releases + |f.pins|
  }

  predicate FlipsOk(f: Screen) {
    f.flips.Ordered() && (!f.flips.pending ==> f.pendingR == 0)
  }

  /** What is scanned out is the front's base or, while an update is pending, the update's. */
  predicate PlaneOk(f: Screen) {
    var p := f.plane;
    Aligned(p.surf) == p.surf && Aligned(p.live) == p.live &&
    (if f.flips.pending then p.surf == f.flips.base && p.surfR == f.pendingR
     else p.surf == f.frontBase && p.surfR == f.front) &&
    (p.live == f.frontBase || (f.flips.pending && p.live == f.flips.base)) &&
    (f.flips.pending && f.flips.latched == f.flips.submitted ==> p.live == f.flips.base)
  }

  /** A kept proof is for its entry's mapping as it is, and an entry without a resource keeps none. */
  ghost predicate ProofsOk(f: Screen, maps: (nat, nat) -> Mapping.Facts) {
    |f.proofs| == ENTRIES && forall k :: 0 <= k < ENTRIES ==> EntryOk(f.proofs[k], maps)
  }

  ghost predicate EntryOk(e: Entry, maps: (nat, nat) -> Mapping.Facts) {
    if e.r == 0 then !e.proof.valid else Mapping.Sound(maps(e.r, e.s), e.proof)
  }

  ghost predicate Inv(w: World) {
    PinsOk(w.f, multiset{}) && FlipsOk(w.f) && PlaneOk(w.f) && ProofsOk(w.f, w.maps)
  }
}
