/** Every run of flips, polls, completion queries, frame ticks and remappings: pins balance and cover
    what is scanned out, kept proofs stay true, frames are counted right. */
module FramebufferRuns {
  import opened Words
  import opened Seqs
  import opened FlipState
  import opened Framebuffer

  // ---- pins ----

  lemma {:induction false} RefsUpdate(es: seq<Entry>, k: nat, e: Entry)
    requires k < |es|
    ensures Refs(es[k := e]) + Ref(es[k].r) == Refs(es) + Ref(e.r)
    ensures Ref(es[k].r) <= Refs(es)
  {
    var rest := Refs(es[1..]);
    if k == 0 {
      assert es[k := e][1..] == es[1..];
      assert (Ref(e.r) + rest) + Ref(es[0].r) == (Ref(es[0].r) + rest) + Ref(e.r);
    } else {
      RefsUpdate(es[1..], k - 1, e);
      assert es[k := e][1..] == es[1..][k - 1 := e];
      AddBoth(Ref(es[0].r), Refs(es[1..][k - 1 := e]), Ref(es[k].r), rest, Ref(e.r));
    }
  }

  lemma PinKeeps(f: Screen, extra: multiset<nat>, r: nat)
    requires PinsOk(f, extra)
    ensures PinsOk(Pin(f, r), extra + multiset{r})
  {
    assert Ref(f.front) + Ref(f.pendingR) + Refs(f.proofs) + extra + multiset{r}
        == Ref(f.front) + Ref(f.pendingR) + Refs(f.proofs) + (extra + multiset{r});
  }

  lemma UnpinKeeps(f: Screen, extra: multiset<nat>, r: nat)
    requires PinsOk(f, extra + Ref(r))
    ensures PinsOk(Unpin(f, r), extra)
  {
    if r != 0 {
      var rest := Ref(f.front) + Ref(f.pendingR) + Refs(f.proofs);
      Less(f.pins, rest + extra, r) by { assert rest + (extra + multiset{r}) == (rest + extra) + multiset{r}; }
    } else {
      assert extra + multiset{} == extra;
    }
  }

  lemma Less(a: multiset<nat>, b: multiset<nat>, r: nat)
    requires a == b + multiset{r}
    ensures a - multiset{r} == b && |a| == |b| + 1
  {
  }

  /** Entries may change; the rest of the screen, but for the pins they own, does not. */
  predicate SameElse(f: Screen, f': Screen) {
    f' == f.(proofs := f'.proofs, proofAge := f'.proofAge, pins := f'.pins, acquires := f'.acquires,
        releases := f'.releases)
  }

  lemma SameBag(a: multiset<nat>, b: multiset<nat>, x: multiset<nat>)
    requires a + x == b + x
    ensures a == b
  {
    assert a == (a + x) - x && b == (b + x) - x;
  }

  lemma GoneBag(fp: multiset<nat>, a: multiset<nat>, b: multiset<nat>, x: multiset<nat>, extra: multiset<nat>)
    requires a + x == b + multiset{}
    ensures fp + b + extra == fp + a + (extra + x)
  {
    assert b == a + x;
  }

  /** Entry k changes but keeps its resource. */
  lemma EntrySame(f: Screen, extra: multiset<nat>, k: nat, e: Entry)
    requires PinsOk(f, extra) && k < |f.proofs| && e.r == f.proofs[k].r
    ensures PinsOk(f.(proofs := f.proofs[k := e]), extra)
  {
    RefsUpdate(f.proofs, k, e);
    SameBag(Refs(f.proofs[k := e]), Refs(f.proofs), Ref(e.r));
  }

  /** Entry k forgets its resource; the pin is still to be dropped. */
  lemma EntryGone(f: Screen, extra: multiset<nat>, k: nat, e: Entry)
    requires PinsOk(f, extra) && k < |f.proofs| && e.r == 0
    ensures PinsOk(f.(proofs := f.proofs[k := e]), extra + Ref(f.proofs[k].r))
  {
    RefsUpdate(f.proofs, k, e);
    GoneBag(Ref(f.front) + Ref(f.pendingR), Refs(f.proofs[k := e]), Refs(f.proofs), Ref(f.proofs[k].r), extra);
  }

  lemma EntryProofs(f: Screen, k: nat, e: Entry, maps: (nat, nat) -> Mapping.Facts)
    requires ProofsOk(f, maps) && k < ENTRIES && EntryOk(e, maps)
    ensures ProofsOk(f.(proofs := f.proofs[k := e]), maps)
  {
  }

  /** The age of the proofs does not matter. */
  lemma SameScreen(f: Screen, f': Screen, extra: multiset<nat>, maps: (nat, nat) -> Mapping.Facts)
    requires PinsOk(f, extra) && ProofsOk(f, maps) && f' == f.(proofAge := f'.proofAge)
    ensures PinsOk(f', extra) && ProofsOk(f', maps)
  {
  }

  lemma EvictKeeps(f: Screen, extra: multiset<nat>, k: nat, maps: (nat, nat) -> Mapping.Facts)
    requires PinsOk(f, extra) && ProofsOk(f, maps) && k < ENTRIES
    ensures PinsOk(Evict(f, k), extra) && ProofsOk(Evict(f, k), maps) && SameElse(f, Evict(f, k))
    ensures Evict(f, k).proofs[k].r == 0 && !Evict(f, k).proofs[k].proof.valid
  {
    var e := f.proofs[k].(r := 0, s := 0, proof := f.proofs[k].proof.(valid := false));
    EntryGone(f, extra, k, e);
    EntryProofs(f, k, e, maps);
    UnpinKeeps(f.(proofs := f.proofs[k := e]), extra, f.proofs[k].r);
  }

  lemma WipeKeeps(f: Screen, extra: multiset<nat>, k: nat, maps: (nat, nat) -> Mapping.Facts)
    requires PinsOk(f, extra) && ProofsOk(f, maps) && k < ENTRIES
    ensures PinsOk(Wipe(f, k), extra) && ProofsOk(Wipe(f, k), maps) && SameElse(f, Wipe(f, k))
  {
    EvictKeeps(f, extra, k, maps);
    EntrySame(Evict(f, k), extra, k, Evict(f, k).proofs[k].(age := 0));
    EntryProofs(Evict(f, k), k, Evict(f, k).proofs[k].(age := 0), maps);
  }

  lemma {:induction false} ClearKeeps(f: Screen, extra: multiset<nat>, k: nat, maps: (nat, nat) -> Mapping.Facts)
    requires PinsOk(f, extra) && ProofsOk(f, maps) && k <= ENTRIES
    ensures PinsOk(Clear(f, k), extra) && ProofsOk(Clear(f, k), maps) && SameElse(f, Clear(f, k))
    decreases ENTRIES - k
  {
    if k < ENTRIES {
      WipeKeeps(f, extra, k, maps);
      ClearKeeps(Wipe(f, k), extra, k + 1, maps);
    }
  }

  /** Entry k, a hole, takes (r, s). */
  lemma FillKeeps(f: Screen, extra: multiset<nat>, k: nat, r: nat, s: nat, maps: (nat, nat) -> Mapping.Facts)
    requires PinsOk(f, extra) && ProofsOk(f, maps) && k < ENTRIES && r != 0
    requires f.proofs[k].r == 0 && !f.proofs[k].proof.valid
    ensures PinsOk(Fill(f, k, r, s), extra) && ProofsOk(Fill(f, k, r, s), maps)
  {
    var e := f.proofs[k].(r := r, s := s, age := f.proofAge + 1);
    FillPins(f, extra, k, e);
    EntryProofs(f, k, e, maps);
    SameScreen(Pin(f, r).(proofs := f.proofs[k := e]), Fill(f, k, r, s), extra, maps);
  }

  lemma FillPins(f: Screen, extra: multiset<nat>, k: nat, e: Entry)
    requires PinsOk(f, extra) && k < |f.proofs| && f.proofs[k].r == 0 && e.r != 0
    ensures PinsOk(Pin(f, e.r).(proofs := f.proofs[k := e]), extra)
  {
    RefsUpdate(f.proofs, k, e);
    FillBag(Ref(f.front) + Ref(f.pendingR), Refs(f.proofs[k := e]), Refs(f.proofs), Ref(e.r), extra);
  }

  lemma FillBag(fp: multiset<nat>, a: multiset<nat>, b: multiset<nat>, x: multiset<nat>, extra: multiset<nat>)
    requires a + multiset{} == b + x
    ensures fp + b + extra + x == fp + a + extra
  {
    assert a == b + x;
  }

  lemma ProofForKeeps(f: Screen, extra: multiset<nat>, r: nat, s: nat, optimize: bool, pinned: bool,
      maps: (nat, nat) -> Mapping.Facts)
    requires PinsOk(f, extra) && ProofsOk(f, maps) && r != 0
    ensures var (f', k) := ProofFor(f, r, s, optimize, pinned);
            PinsOk(f', extra) && ProofsOk(f', maps) && SameElse(f, f') &&
            (k.Some? ==> f'.proofs[k.value].r == r && f'.proofs[k.value].s == s)
  {
    if !optimize {
      ClearKeeps(f, extra, 0, maps);
    } else {
      match Scan(f.proofs, 0, None, r, s, f.front, f.pendingR)
      case Nothing =>
      case Hit(k) => TouchKeeps(f, extra, k, maps);
      case Use(k) =>
        EvictKeeps(f, extra, k, maps);
        if pinned { FillKeeps(Evict(f, k), extra, k, r, s, maps); }
    }
  }

  lemma TouchKeeps(f: Screen, extra: multiset<nat>, k: nat, maps: (nat, nat) -> Mapping.Facts)
    requires PinsOk(f, extra) && ProofsOk(f, maps) && k < ENTRIES
    ensures PinsOk(Touch(f, k), extra) && ProofsOk(Touch(f, k), maps)
  {
    var e := f.proofs[k].(age := f.proofAge + 1);
    EntrySame(f, extra, k, e);
    assert EntryOk(f.proofs[k], maps);
    EntryProofs(f, k, e, maps);
    SameScreen(f.(proofs := f.proofs[k := e]), Touch(f, k), extra, maps);
  }

  lemma CheckKeeps(f: Screen, extra: multiset<nat>, q: Request, choice: Option<nat>, maps: (nat, nat) -> Mapping.Facts)
    requires PinsOk(f, extra) && ProofsOk(f, maps) && q.r != 0 && q.facts == maps(q.r, q.s)
    requires choice.Some? ==>
               choice.value < ENTRIES && f.proofs[choice.value].r == q.r && f.proofs[choice.value].s == q.s
    ensures var (good, f') := Check(f, q, choice);
            PinsOk(f', extra) && ProofsOk(f', maps) && SameElse(f, f') &&
            (good <==> Mapping.Proven(q.facts, q.va, q.bytes))
  {
    if choice.Some? {
      var k := choice.value;
      var (good, proof) := Mapping.Inspected(q.facts, q.va, q.bytes, f.proofs[k].proof);
      assert EntryOk(f.proofs[k], maps);
      Mapping.CacheAgrees(q.facts, q.va, q.bytes, f.proofs[k].proof);
      EntrySame(f, extra, k, f.proofs[k].(proof := proof));
    }
  }

  // ---- the plane ----

  /** All of the invariant but the pins. */
  ghost predicate Rest(w: World) { FlipsOk(w.f) && PlaneOk(w.f) && ProofsOk(w.f, w.maps) }

  lemma PollKeeps(w: World, extra: multiset<nat>)
    requires Rest(w) && PinsOk(w.f, extra)
    ensures Rest(w.(f := Poll(w.f))) && PinsOk(Poll(w.f), extra)
  {
  }

  lemma ArmKeeps(w: World, r: nat, va: nat, tiles: Outcome)
    requires Rest(w) && PinsOk(w.f, Ref(r)) && Aligned(va) == va
    ensures var (f, outcome) := ArmPrimary(w.f, r, va, tiles);
            Rest(w.(f := f)) && (if outcome == Armed then PinsOk(f, multiset{}) else f == w.f)
  {
    var (f, outcome) := ArmPrimary(w.f, r, va, tiles);
    if !w.f.flips.pending && (r == 0 || tiles == Armed) {
      PollKeeps(w, Ref(r));
      assert Ref(w.f.front) + multiset{} + Refs(w.f.proofs) + Ref(r)
          == Ref(w.f.front) + Ref(r) + Refs(w.f.proofs) + multiset{};
    }
  }

  lemma FinishKeeps(w: World)
    requires Inv(w)
    ensures Inv(w.(f := FinishFlip(w.f)))
  {
    var f := w.f;
    if f.flips.Finishes() { FrontGone(f); }
  }

  /** The front moves out of the books, the pending resource moves up. */
  lemma FrontGone(f: Screen)
    requires PinsOk(f, multiset{})
    ensures PinsOk(Unpin(f, f.front).(front := f.pendingR, pendingR := 0), multiset{})
  {
    var rest := Ref(f.pendingR) + multiset{} + Refs(f.proofs) + multiset{};
    assert Ref(f.front) + Ref(f.pendingR) + Refs(f.proofs) + multiset{} == rest + Ref(f.front);
    if f.front != 0 { Less(f.pins, rest, f.front); }
  }

  lemma FlipKeeps(w: World, q: Request)
    requires Inv(w) && q.facts == w.maps(q.r, q.s)
    ensures Inv(w.(f := Flip(w.f, q).0))
  {
    var f := w.f;
    if q.kind != 1 || f.flips.pending || (q.r == 0 && q.s == 0 && q.dirty) {
    } else if q.r == 0 && q.s == 0 {
      assert Ref(0) == multiset{};
      ArmKeeps(w, 0, 0, Armed);
    } else if q.r != 0 && q.s != 0 && q.suitable && q.pinned {
      FlipPinned(w, q);
    }
  }

  lemma FlipPinned(w: World, q: Request)
    requires Inv(w) && q.facts == w.maps(q.r, q.s)
    requires q.kind == 1 && !w.f.flips.pending && q.r != 0 && q.s != 0 && q.suitable && q.pinned
    ensures Inv(w.(f := Flip(w.f, q).0))
  {
    var f, extra := w.f, multiset{q.r};
    PinKeeps(f, multiset{}, q.r);
    assert multiset{} + extra == extra;
    ProofForKeeps(Pin(f, q.r), extra, q.r, q.s, q.optimize, q.again, w.maps);
    var (f1, choice) := ProofFor(Pin(f, q.r), q.r, q.s, q.optimize, q.again);
    CheckKeeps(f1, extra, q, choice, w.maps);
    var (good, f2) := Check(f1, q, choice);
    assert Ref(q.r) == extra;
    if !good { UnpinKeeps(f2, multiset{}, q.r); } else { FlipChecked(w.(f := f2), q); }
  }

  /** A request whose mapping was proven is armed, or its pin is dropped. */
  lemma FlipChecked(w: World, q: Request)
    requires Rest(w) && PinsOk(w.f, multiset{q.r}) && q.r != 0 && Aligned(q.va) == q.va
    ensures var (f, outcome) := ArmPrimary(w.f, q.r, q.va, q.tiles);
            Inv(w.(f := if outcome == Armed then f else Unpin(f, q.r)))
  {
    assert Ref(q.r) == multiset{q.r} && multiset{} + multiset{q.r} == multiset{q.r};
    ArmKeeps(w, q.r, q.va, q.tiles);
    UnpinKeeps(w.f, multiset{}, q.r);
  }

  lemma StepKeeps(w: World, s: Step)
    requires Inv(w)
    ensures Inv(Next(w, s))
  {
    if Enabled(w, s) {
      match s
      case Tick(latch) =>
      case TimerPoll => PollKeeps(w, multiset{});
      case DoFlip(q) => FlipKeeps(w, q);
      case DoItcm =>
        PollKeeps(w, multiset{});
        FinishKeeps(w.(f := Poll(w.f)));
      case Remap(maps) => RemapKeeps(w, maps);
    }
  }

  lemma RemapKeeps(w: World, maps: (nat, nat) -> Mapping.Facts)
    requires Inv(w) && KeepsPinned(w.f.pins, w.maps, maps)
    ensures Inv(w.(maps := maps))
  {
    forall k | 0 <= k < ENTRIES ensures EntryOk(w.f.proofs[k], maps) {
      assert EntryOk(w.f.proofs[k], w.maps);
      RefsUpdate(w.f.proofs, k, HOLE);
      if w.f.proofs[k].r != 0 { assert w.f.proofs[k].r in w.f.pins; }
    }
  }

  lemma StartHolds(w: World)
    requires Starts(w)
    ensures Inv(w)
  {
    NoRefs(w.f.proofs);
  }

  lemma {:induction false} NoRefs(es: seq<Entry>)
    requires forall k :: 0 <= k < |es| ==> es[k].r == 0
    ensures Refs(es) == multiset{}
  {
    if es != [] { NoRefs(es[1..]); }
  }

  lemma {:induction false} RunKeeps(w: World, steps: seq<Step>)
    requires Inv(w)
    ensures Inv(Framebuffer.Run(w, steps))
    decreases |steps|
  {
    if steps != [] {
      StepKeeps(w, steps[0]);
      RunKeeps(Next(w, steps[0]), steps[1..]);
    }
  }

  // ---- what it means ----

  /** In any run, the base being scanned out is the front's, or the pending update's; and whichever of
      the two has a resource, that resource is pinned. */
  lemma LiveBaseIsCovered(w: World, steps: seq<Step>)
    requires Starts(w)
    ensures var f := Framebuffer.Run(w, steps).f;
            (f.plane.live == f.frontBase || (f.flips.pending && f.plane.live == f.flips.base)) &&
            (f.front != 0 ==> f.front in f.pins) && (f.pendingR != 0 ==> f.pendingR in f.pins)
  {
    StartHolds(w);
    RunKeeps(w, steps);
    var f := Framebuffer.Run(w, steps).f;
    assert f.front != 0 ==> f.front in Ref(f.front);
    assert f.pendingR != 0 ==> f.pendingR in Ref(f.pendingR);
  }

  /** In any run, pins taken less pins dropped are exactly the front, the pending update and the
      proofs that have a resource. */
  lemma PinsBalance(w: World, steps: seq<Step>)
    requires Starts(w)
    ensures var f := Framebuffer.Run(w, steps).f;
            f.pins == Ref(f.front) + Ref(f.pendingR) + Refs(f.proofs) && f.acquires == f.releases + |f.pins|
  {
    StartHolds(w);
    RunKeeps(w, steps);
    var f := Framebuffer.Run(w, steps).f;
    assert f.pins + multiset{} == f.pins;
  }

  /** In any run, a kept proof is of a full page walk that would succeed right now. */
  lemma KeptProofsAreTrue(w: World, steps: seq<Step>, k: nat)
    requires Starts(w) && k < ENTRIES
    requires var f := Framebuffer.Run(w, steps).f; k < |f.proofs| && f.proofs[k].proof.valid
    ensures var w' := Framebuffer.Run(w, steps);
            var e := w'.f.proofs[k];
            e.r in w'.f.pins && Mapping.Proven(w'.maps(e.r, e.s), e.proof.identity.va, e.proof.identity.bytes)
  {
    StartHolds(w);
    RunKeeps(w, steps);
    var w' := Framebuffer.Run(w, steps);
    var e := w'.f.proofs[k];
    assert EntryOk(e, w'.maps);
    RefsUpdate(w'.f.proofs, k, HOLE);
    assert e.r in Ref(e.r);
  }

  /** Whatever a run's cache holds, a surface flip is armed only if the full page walk would succeed. */
  lemma ArmedIsProven(w: World, steps: seq<Step>, q: Request)
    requires Starts(w) && q.facts == Framebuffer.Run(w, steps).maps(q.r, q.s)
    requires Flip(Framebuffer.Run(w, steps).f, q).1 == Armed && q.r != 0
    ensures Mapping.Proven(q.facts, q.va, q.bytes)
  {
    StartHolds(w);
    RunKeeps(w, steps);
    var f := Framebuffer.Run(w, steps).f;
    PinKeeps(f, multiset{}, q.r);
    assert multiset{} + multiset{q.r} == multiset{q.r};
    ProofForKeeps(Pin(f, q.r), multiset{q.r}, q.r, q.s, q.optimize, q.again, Framebuffer.Run(w, steps).maps);
    var (f1, choice) := ProofFor(Pin(f, q.r), q.r, q.s, q.optimize, q.again);
    CheckKeeps(f1, multiset{q.r}, q, choice, Framebuffer.Run(w, steps).maps);
  }

  /** When a completion query says complete, the last armed base is the one being scanned out. */
  lemma CompleteIsLive(w: World, steps: seq<Step>)
    requires Starts(w) && Itcm(Framebuffer.Run(w, steps).f).1
    ensures var f := Itcm(Framebuffer.Run(w, steps).f).0;
            !f.flips.pending && f.plane.live == f.plane.surf == f.frontBase && f.plane.surfR == f.front
  {
    StartHolds(w);
    RunKeeps(w, steps);
    StepKeeps(Framebuffer.Run(w, steps), DoItcm);
  }

  // ---- scanned resources, when every frame latches ----

  predicate Latches(steps: seq<Step>) {
    forall k :: 0 <= k < |steps| && steps[k].Tick? ==> steps[k].latch
  }

  predicate FramesOk(f: Screen) {
    f.lastFrame == f.polled % FRAMES && f.plane.armFrame <= f.polled <= f.plane.frame &&
    (f.flips.pending ==> f.flips.armWrap <= f.wraps && (f.flips.armWrap < f.wraps ==> f.plane.armFrame < f.polled))
  }

  /** Once a frame has passed since arming, the plane shows what was armed; until then, the front. */
  predicate ShownOk(f: Screen) {
    var p := f.plane;
    (p.frame > p.armFrame ==> p.live == p.surf && p.liveR == p.surfR) &&
    (p.liveR == f.front || (f.flips.pending && p.liveR == f.pendingR)) &&
    (f.flips.pending && f.flips.latched == f.flips.submitted ==> p.frame > p.armFrame)
  }

  ghost predicate Shown(w: World) { Inv(w) && FramesOk(w.f) && ShownOk(w.f) }

  lemma ElapsedSome(f: Screen)
    requires f.lastFrame == f.polled % FRAMES && f.polled <= f.plane.frame && Elapsed(f) > 0
    ensures f.polled < f.plane.frame
  {
  }

  lemma PollShows(f: Screen)
    requires FlipsOk(f) && PlaneOk(f) && FramesOk(f) && ShownOk(f)
    ensures FramesOk(Poll(f)) && ShownOk(Poll(f))
  {
    if Elapsed(f) > 0 { ElapsedSome(f); }
  }

  lemma ArmShows(f: Screen, r: nat, va: nat, tiles: Outcome)
    requires FlipsOk(f) && PlaneOk(f) && FramesOk(f) && ShownOk(f)
    ensures FramesOk(ArmPrimary(f, r, va, tiles).0) && ShownOk(ArmPrimary(f, r, va, tiles).0)
  {
    if !f.flips.pending { PollShows(f); }
  }

  lemma ProofForSame(w: World, q: Request)
    requires Inv(w) && q.r != 0 && q.facts == w.maps(q.r, q.s)
    ensures var (f1, choice) := ProofFor(Pin(w.f, q.r), q.r, q.s, q.optimize, q.again);
            SameElse(w.f, Check(f1, q, choice).1)
  {
    PinKeeps(w.f, multiset{}, q.r);
    assert multiset{} + multiset{q.r} == multiset{q.r};
    ProofForKeeps(Pin(w.f, q.r), multiset{q.r}, q.r, q.s, q.optimize, q.again, w.maps);
  }

  lemma FlipShows(w: World, q: Request)
    requires Shown(w) && q.facts == w.maps(q.r, q.s)
    ensures FramesOk(Flip(w.f, q).0) && ShownOk(Flip(w.f, q).0)
  {
    var f := w.f;
    if q.kind == 1 && !f.flips.pending {
      if q.r == 0 && q.s == 0 {
        ArmShows(f, 0, 0, Armed);
      } else if q.r != 0 && q.s != 0 && q.suitable && q.pinned {
        ProofForSame(w, q);
        var (f1, choice) := ProofFor(Pin(f, q.r), q.r, q.s, q.optimize, q.again);
        ArmShows(Check(f1, q, choice).1, q.r, q.va, q.tiles);
      }
    }
  }

  lemma ItcmShows(w: World)
    requires Shown(w)
    ensures FramesOk(Itcm(w.f).0) && ShownOk(Itcm(w.f).0)
  {
    PollShows(w.f);
  }

  lemma StepShows(w: World, s: Step)
    requires Shown(w) && (s.Tick? ==> s.latch)
    ensures Shown(Next(w, s))
  {
    StepKeeps(w, s);
    if Enabled(w, s) {
      match s
      case Tick(_) =>
      case TimerPoll => PollShows(w.f);
      case DoFlip(q) => FlipShows(w, q);
      case DoItcm => ItcmShows(w);
      case Remap(_) =>
    }
  }

  lemma {:induction false} RunShows(w: World, steps: seq<Step>)
    requires Shown(w) && Latches(steps)
    ensures Shown(Framebuffer.Run(w, steps))
    decreases |steps|
  {
    if steps != [] {
      StepShows(w, steps[0]);
      RunShows(Next(w, steps[0]), steps[1..]);
    }
  }

  /** If the plane latches the armed base at every frame, the resource it scans out is pinned in every
      state of every run. (Without that, LiveBaseIsCovered still holds, but speaks of bases: two
      resources may have been armed at one.) */
  lemma ScannedIsPinned(w: World, steps: seq<Step>)
    requires Starts(w) && Latches(steps)
    ensures var f := Framebuffer.Run(w, steps).f; f.plane.liveR == 0 || f.plane.liveR in f.pins
  {
    StartHolds(w);
    RunShows(w, steps);
    var f := Framebuffer.Run(w, steps).f;
    assert f.front != 0 ==> f.front in Ref(f.front);
    assert f.pendingR != 0 ==> f.pendingR in Ref(f.pendingR);
  }

  // ---- scanned resources, whether frames latch or not ----

  /** No update is armed at the front's base for another resource. */
  predicate Apart(f: Screen) {
    f.flips.pending && f.flips.base == f.frontBase ==> f.pendingR == f.front
  }

  ghost predicate StayApart(w: World, steps: seq<Step>)
    decreases |steps|
  {
    Apart(w.f) && (steps == [] || StayApart(Next(w, steps[0]), steps[1..]))
  }

  /** The plane scans out the front at its base, or the pending update at its own. */
  predicate ScansOk(f: Screen) {
    (f.plane.liveR == f.front && f.plane.live == f.frontBase) ||
    (f.flips.pending && f.plane.liveR == f.pendingR && f.plane.live == f.flips.base)
  }

  lemma FlipScans(w: World, q: Request)
    requires Inv(w) && ScansOk(w.f) && q.facts == w.maps(q.r, q.s)
    ensures ScansOk(Flip(w.f, q).0)
  {
    if q.kind == 1 && !w.f.flips.pending {
      if q.r == 0 && q.s == 0 {
        ArmScans(w.f, 0, 0, Armed);
      } else if q.r != 0 && q.s != 0 && q.suitable && q.pinned {
        ProofForSame(w, q);
        var (f1, choice) := ProofFor(Pin(w.f, q.r), q.r, q.s, q.optimize, q.again);
        ArmScans(Check(f1, q, choice).1, q.r, q.va, q.tiles);
      }
    }
  }

  lemma ArmScans(f: Screen, r: nat, va: nat, tiles: Outcome)
    requires ScansOk(f)
    ensures ScansOk(ArmPrimary(f, r, va, tiles).0)
  {
  }

  lemma ItcmScans(w: World)
    requires Inv(w) && Apart(w.f) && ScansOk(w.f)
    ensures ScansOk(Itcm(w.f).0)
  {
    PollKeeps(w, multiset{});
  }

  lemma ScansStep(w: World, s: Step)
    requires Inv(w) && Apart(w.f) && ScansOk(w.f)
    ensures ScansOk(Next(w, s).f)
  {
    if Enabled(w, s) {
      match s
      case Tick(_) =>
      case TimerPoll =>
      case DoFlip(q) => FlipScans(w, q);
      case DoItcm => ItcmScans(w);
      case Remap(_) =>
    }
  }

  lemma {:induction false} RunScans(w: World, steps: seq<Step>)
    requires Inv(w) && ScansOk(w.f) && StayApart(w, steps)
    ensures Inv(Framebuffer.Run(w, steps)) && ScansOk(Framebuffer.Run(w, steps).f)
    decreases |steps|
  {
    if steps != [] {
      StepKeeps(w, steps[0]);
      ScansStep(w, steps[0]);
      RunScans(Next(w, steps[0]), steps[1..]);
    }
  }

  /** Whenever the plane latches: as long as no update is armed at the front's base for another resource,
      the resource it scans out is pinned, in every state. */
  lemma ScannedApartIsPinned(w: World, steps: seq<Step>)
    requires Starts(w) && StayApart(w, steps)
    ensures var f := Framebuffer.Run(w, steps).f; f.plane.liveR == 0 || f.plane.liveR in f.pins
  {
    StartHolds(w);
    RunScans(w, steps);
    var f := Framebuffer.Run(w, steps).f;
    assert f.front != 0 ==> f.front in Ref(f.front);
    assert f.pendingR != 0 ==> f.pendingR in Ref(f.pendingR);
  }

  /** An update has just been armed at the base of a front that is still scanned out, for another resource. */
  predicate ArmedOver(f: Screen) {
    f.flips.pending && f.flips.latched != f.flips.submitted && f.flips.base == f.frontBase && f.pendingR != f.front &&
    f.front != 0 && f.plane.liveR == f.front && f.plane.live == f.frontBase && Aligned(f.frontBase) == f.frontBase &&
    f.polled == f.plane.frame && f.lastFrame == f.polled % FRAMES && f.flips.armWrap == f.wraps
  }

  /** A frame that does not latch, and a completion query: the front has changed, the picture has not. */
  lemma MissedFrame(f: Screen) returns (out: Screen)
    requires ArmedOver(f)
    ensures out == Itcm(f.(plane := Ticked(f.plane, false))).0
    ensures out.plane.liveR == f.front && out.front == f.pendingR && out.pendingR == 0 && out.proofs == f.proofs
    ensures out.pins == f.pins - multiset{f.front}
  {
    OneFrame(f.polled);
    var f1 := f.(plane := Ticked(f.plane, false));
    assert Elapsed(f1) == 1;
    assert Poll(f1).flips == f.flips.(latched := f.flips.submitted);
    out := Itcm(f1).0;
  }

  lemma OneFrame(n: nat)
    ensures ((n + 1) % FRAMES - n % FRAMES) % FRAMES == 1
  {
  }

  lemma RunTwo(w: World, a: Step, b: Step)
    ensures Framebuffer.Run(w, [a, b]) == Next(Next(w, a), b)
  {
    assert [a, b][1..] == [b] && [b][1..] == [];
    assert Framebuffer.Run(Next(w, a), [b]) == Framebuffer.Run(Next(Next(w, a), b), []);
  }

  /** And otherwise not: of a front still scanned out when an update is armed at its base for another
      resource, a frame that does not latch and a completion query leave a pin if and only if a mapping
      proof for it is kept. */
  lemma SharedBaseUncovers(w: World)
    requires PinsOk(w.f, multiset{}) && ArmedOver(w.f)
    ensures var f := Framebuffer.Run(w, [Tick(false), DoItcm]).f;
            f.plane.liveR == w.f.front && f.front == w.f.pendingR && f.pendingR == 0 &&
            (f.plane.liveR in f.pins <==> w.f.front in Refs(w.f.proofs))
  {
    RunTwo(w, Tick(false), DoItcm);
    var f := MissedFrame(w.f);
    PinLeft(w.f, f.pins);
  }

  lemma PinLeft(f: Screen, left: multiset<nat>)
    requires PinsOk(f, multiset{}) && f.front != 0 && f.pendingR != f.front && left == f.pins - multiset{f.front}
    ensures f.front in left <==> f.front in Refs(f.proofs)
  {
    assert left[f.front] == Ref(f.pendingR)[f.front] + Refs(f.proofs)[f.front];
  }

  // ---- counting frames ----

  /** The 64-bit count is the true number of frames since the start. */
  predicate CountTrue(f: Screen) {
    f.lastFrame == f.polled % FRAMES && f.start <= f.polled <= f.plane.frame && f.wraps == f.polled - f.start
  }

  /** A poll keeps the count true exactly when fewer frames passed than the register can tell apart. */
  lemma PollCountsExactly(f: Screen)
    requires CountTrue(f)
    ensures CountTrue(Poll(f)) <==> f.plane.frame - f.polled < FRAMES
  {
    ElapsedIs(f.polled, f.plane.frame);
  }

  lemma ElapsedIs(a: nat, b: nat)
    requires a <= b
    ensures (b % FRAMES - a % FRAMES) % FRAMES == (b - a) % FRAMES
    ensures (b - a) % FRAMES == b - a <==> b - a < FRAMES
  {
    var x, y := a / FRAMES, b / FRAMES;
    assert b - a == (y - x) * FRAMES + (b % FRAMES - a % FRAMES);
    ModShift(b % FRAMES - a % FRAMES, y - x);
  }

  lemma {:induction false} ModShift(r: int, k: nat)
    ensures (k * FRAMES + r) % FRAMES == r % FRAMES
  {
    if k > 0 {
      ModShift(r, k - 1);
      assert k * FRAMES + r == ((k - 1) * FRAMES + r) + FRAMES;
    }
  }

  /** No state of the run is so long after the last poll that the register wrapped unseen. */
  ghost predicate Prompt(w: World, steps: seq<Step>)
    decreases |steps|
  {
    w.f.plane.frame - w.f.polled < FRAMES && (steps == [] || Prompt(Next(w, steps[0]), steps[1..]))
  }

  lemma CountStep(w: World, s: Step)
    requires Inv(w) && CountTrue(w.f) && w.f.plane.frame - w.f.polled < FRAMES
    ensures CountTrue(Next(w, s).f)
  {
    if Enabled(w, s) {
      PollCountsExactly(w.f);
      if s.DoFlip? { FlipCounts(w, s.q); }
    }
  }

  lemma FlipCounts(w: World, q: Request)
    requires Inv(w) && CountTrue(w.f) && CountTrue(Poll(w.f)) && q.facts == w.maps(q.r, q.s)
    ensures CountTrue(Flip(w.f, q).0)
  {
    if q.kind == 1 && !w.f.flips.pending && q.r != 0 && q.s != 0 && q.suitable && q.pinned {
      ProofForSame(w, q);
      var (f1, choice) := ProofFor(Pin(w.f, q.r), q.r, q.s, q.optimize, q.again);
      ArmCounts(w.f, Check(f1, q, choice).1, q.r, q.va, q.tiles);
    } else if q.kind == 1 && !w.f.flips.pending && q.r == 0 && q.s == 0 {
      ArmCounts(w.f, w.f, 0, 0, Armed);
    }
  }

  lemma ArmCounts(f: Screen, f': Screen, r: nat, va: nat, tiles: Outcome)
    requires SameElse(f, f') && CountTrue(f) && CountTrue(Poll(f))
    ensures CountTrue(ArmPrimary(f', r, va, tiles).0) && CountTrue(f')
  {
  }

  lemma {:induction false} FramesAreCounted(w: World, steps: seq<Step>)
    requires Inv(w) && CountTrue(w.f) && Prompt(w, steps)
    ensures CountTrue(Framebuffer.Run(w, steps).f)
    decreases |steps|
  {
    if steps != [] {
      StepKeeps(w, steps[0]);
      CountStep(w, steps[0]);
      FramesAreCounted(Next(w, steps[0]), steps[1..]);
    }
  }

  // ---- a frame count that comes out wrong ----

  /** n frames pass, each latched. */
  function Ticks(n: nat): seq<Step> { if n == 0 then [] else [Tick(true)] + Ticks(n - 1) }

  lemma {:induction false} TicksRun(w: World, n: nat)
    requires w.f.plane.live == w.f.plane.surf && w.f.plane.liveR == w.f.plane.surfR
    ensures Framebuffer.Run(w, Ticks(n)) == w.(f := w.f.(plane := w.f.plane.(frame := w.f.plane.frame + n)))
    decreases n
  {
    if n > 0 {
      assert Ticks(n)[0] == Tick(true) && Ticks(n)[1..] == Ticks(n - 1);
      TicksRun(Next(w, Tick(true)), n - 1);
    }
  }

  lemma {:induction false} RunOn(w: World, steps: seq<Step>, s: Step)
    ensures Framebuffer.Run(w, steps + [s]) == Next(Framebuffer.Run(w, steps), s)
    decreases |steps|
  {
    if steps == [] {
      assert ([] + [s])[1..] == [];
      assert Framebuffer.Run(Next(w, s), []) == Next(w, s);
    } else {
      assert (steps + [s])[1..] == steps[1..] + [s];
      RunOn(Next(w, steps[0]), steps[1..], s);
    }
  }

  /** From any start: after n frames without a poll, one poll counts them right if and only if n is below
      2^32. */
  lemma FirstPollExactly(w: World, n: nat)
    requires Starts(w)
    ensures CountTrue(Framebuffer.Run(w, Ticks(n) + [TimerPoll]).f) <==> n < FRAMES
  {
    TicksRun(w, n);
    RunOn(w, Ticks(n), TimerPoll);
    PollCountsExactly(Framebuffer.Run(w, Ticks(n)).f);
  }
}
