/** The scratch buffers of one `prepare` call (prepare_gen12_probe.cpp), from gen12_scratch.c's create
    to its destroy. */
module ScratchDesk {
  import opened Words
  import opened Ownership

  const MAX_REQUEST := 64 * 1024 * 1024
  const NONE := Scratch(0, 0, 0, 0)

  /** What the kernel answers to one creation: a range of memory at `address`, a resource over it,
      and the resource's shared page (handle and mapped size). */
  datatype Answer = Answer(address: nat, resource: nat, meta: Option<(word, nat)>, dataSize: nat)

  /** What the process has from the kernel. */
  datatype Owned = Owned(ranges: multiset<(nat, nat)>, resources: multiset<nat>)

  /** The requested size rounded up to whole pages. */
  function Rounded(requested: nat, page: nat): (bytes: nat)
    requires page > 0
    ensures requested <= bytes < requested + page
  {
    (requested + page - 1) / page * page
  }

  /** It is the one size of whole pages that leaves less than a page over. */
  lemma WholePages(requested: nat, page: nat, pages: nat)
    requires page > 0
    ensures Rounded(requested, page) == page * pages <==> requested <= page * pages < requested + page
  {
    var q := (requested + page - 1) / page;
    assert Rounded(requested, page) == page * q;
    if requested <= page * pages < requested + page {
      assert pages < q ==> page * (pages + 1) <= page * q;
      assert pages > q ==> page * (q + 1) <= page * pages;
    }
  }

  function RangeOf(s: Scratch): multiset<(nat, nat)> {
    if s.backing != 0 && s.bytes != 0 then multiset{(s.backing, s.bytes)} else multiset{}
  }

  function ResourceOf(s: Scratch): multiset<nat> {
    if s.resource != 0 then multiset{s.resource} else multiset{}
  }

  function With(o: Owned, s: Scratch): Owned {
    Owned(o.ranges + RangeOf(s), o.resources + ResourceOf(s))
  }

  function Without(o: Owned, s: Scratch): Owned {
    Owned(o.ranges - RangeOf(s), o.resources - ResourceOf(s))
  }

  function WithAll(o: Owned, ss: seq<Scratch>): Owned {
    if ss == [] then o else With(WithAll(o, ss[1..]), ss[0])
  }

  predicate Live(s: Scratch) { s.resource != 0 && s.backing != 0 && s.bytes != 0 && 0 < s.handle < 0x1_0000 }

  lemma TakenBack(o: Owned, s: Scratch)
    ensures Without(With(o, s), s) == o
  {
  }

  function AddRange(o: Owned, address: nat, bytes: nat): Owned { o.(ranges := o.ranges + multiset{(address, bytes)}) }

  function DropRange(o: Owned, address: nat, bytes: nat): Owned { o.(ranges := o.ranges - multiset{(address, bytes)}) }

  function AddResource(o: Owned, resource: nat): Owned { o.(resources := o.resources + multiset{resource}) }

  function DropResource(o: Owned, resource: nat): Owned { o.(resources := o.resources - multiset{resource}) }

  lemma RangeBack(o: Owned, address: nat, bytes: nat)
    ensures DropRange(AddRange(o, address, bytes), address, bytes) == o
  {
  }

  lemma ResourceBack(o: Owned, resource: nat)
    ensures DropResource(AddResource(o, resource), resource) == o
  {
  }

  lemma BothAdd(o: Owned, s: Scratch)
    requires s.resource != 0 && s.backing != 0 && s.bytes != 0
    ensures AddResource(AddRange(o, s.backing, s.bytes), s.resource) == With(o, s)
  {
  }

  lemma Swap(o: Owned, a: Scratch, b: Scratch)
    ensures With(With(o, a), b) == With(With(o, b), a)
  {
  }

  lemma {:induction false} OneMore(o: Owned, ss: seq<Scratch>, s: Scratch)
    ensures WithAll(o, ss + [s]) == With(WithAll(o, ss), s)
  {
    if ss == [] {
      assert (ss + [s])[1..] == [];
    } else {
      OneMore(o, ss[1..], s);
      assert (ss + [s])[1..] == ss[1..] + [s];
      Swap(WithAll(o, ss[1..]), s, ss[0]);
    }
  }

  /** What is owned after each of these buffers is destroyed in turn. */
  lemma {:induction false} Stages(o: Owned, ss: seq<Scratch>) returns (stages: seq<Owned>)
    ensures Descends(stages, ss) && stages[0] == WithAll(o, ss) && stages[|ss|] == o
  {
    if ss == [] {
      stages := [o];
    } else {
      var rest := Stages(o, ss[1..]);
      TakenBack(rest[0], ss[0]);
      stages := [WithAll(o, ss)] + rest;
    }
  }

  lemma NoneAdds(o: Owned)
    ensures With(o, NONE) == o
  {
  }

  lemma {:induction false} NothingToDestroy(o: Owned, ss: seq<Scratch>)
    requires forall k :: 0 <= k < |ss| ==> ss[k] == NONE
    ensures WithAll(o, ss) == o
  {
    if ss != [] {
      NothingToDestroy(o, ss[1..]);
      NoneAdds(o);
    }
  }

  /** Every condition creation checks, on its request and on the kernel's answers. */
  predicate Made(shared: nat, requested: nat, page: nat, mapped: bool, a: Answer)
    requires page > 0
  {
    shared != 0 && 0 < requested <= MAX_REQUEST && mapped && a.resource != 0 && a.meta.Some? &&
        0 < a.meta.value.0 <= 65535 &&
    a.dataSize == Rounded(requested, page) && a.meta.value.1 >= Rounded(requested, page)
  }

  predicate IsMade(s: Scratch, requested: nat, page: nat, a: Answer)
    requires page > 0
  {
    Live(s) && s.bytes == Rounded(requested, page) && s.resource == a.resource && s.backing == a.address &&
    a.meta.Some? && s.handle == a.meta.value.0
  }

  /** On the numbers: a request of 1 byte to 64 MiB is met with whole pages, as few as will do, if each
      step succeeds, the handle has 16 bits and is not 0, and the sizes the kernel gives are enough. */
  lemma MadeOnNumbers(shared: nat, requested: nat, page: nat, mapped: bool, a: Answer, pages: nat)
    requires page > 0 && requested <= page * pages < requested + page
    ensures Made(shared, requested, page, mapped, a) <==>
            (shared != 0 && 0 < requested <= 0x400_0000 && mapped && a.resource != 0 && a.meta.Some? &&
             0 < a.meta.value.0 < 0x1_0000 && a.dataSize == page * pages <= a.meta.value.1)
    ensures forall s :: IsMade(s, requested, page, a) ==>
              s.bytes == page * pages && s.resource == a.resource && s.backing == a.address &&
              a.meta.Some? && s.handle == a.meta.value.0
  {
    WholePages(requested, page, pages);
  }

  /** One call's requests, and the kernel's answers to them. */
  datatype Plan = Plan(shared: nat, sizes: seq<nat>, page: nat, mapped: seq<bool>, answers: seq<Answer>) {
    ghost predicate Valid() {
      page > 0 && |sizes| == |mapped| == |answers| == SCRATCH &&
      forall k :: 0 <= k < SCRATCH ==> mapped[k] ==> answers[k].address != 0
    }

    /** The first n creations succeed. */
    predicate MakesAll(n: nat)
      requires page > 0 && n <= |sizes| == |mapped| == |answers|
    {
      forall k :: 0 <= k < n ==> Made(shared, sizes[k], page, mapped[k], answers[k])
    }

    /** These are the buffers the first |ss| creations made. */
    predicate AreMade(ss: seq<Scratch>)
      requires page > 0 && |ss| <= |sizes| == |answers|
    {
      forall k :: 0 <= k < |ss| ==> IsMade(ss[k], sizes[k], page, answers[k])
    }
  }

  /** k buffers are created, the rest are not. */
  ghost predicate Creating(p: Plan, o: Owned, now: Owned, bs: seq<Scratch>, k: nat)
    requires p.Valid()
  {
    |bs| == SCRATCH && k <= SCRATCH && now == WithAll(o, bs[..k]) && p.MakesAll(k) && p.AreMade(bs[..k]) &&
    forall j :: k <= j < SCRATCH ==> bs[j] == NONE
  }

  lemma CreatingStep(p: Plan, o: Owned, now: Owned, now': Owned, bs: seq<Scratch>, k: nat, s: Scratch)
    requires p.Valid() && Creating(p, o, now, bs, k) && k < SCRATCH && now' == With(now, s)
    requires Made(p.shared, p.sizes[k], p.page, p.mapped[k], p.answers[k]) &&
             IsMade(s, p.sizes[k], p.page, p.answers[k])
    ensures Creating(p, o, now', bs[k := s], k + 1)
  {
    var made := bs[..k];
    SetNext(bs, k, s);
    OneMore(o, made, s);
    MadeMore(p, made, s, k);
  }

  lemma SetNext(bs: seq<Scratch>, k: nat, s: Scratch)
    requires k < |bs|
    ensures bs[k := s][..k + 1] == bs[..k] + [s] && forall j :: k < j < |bs| ==> bs[k := s][j] == bs[j]
  {
  }

  lemma MadeMore(p: Plan, made: seq<Scratch>, s: Scratch, k: nat)
    requires p.Valid() && |made| == k < SCRATCH && p.MakesAll(k) && p.AreMade(made)
    requires Made(p.shared, p.sizes[k], p.page, p.mapped[k], p.answers[k]) &&
             IsMade(s, p.sizes[k], p.page, p.answers[k])
    ensures p.MakesAll(k + 1) && p.AreMade(made + [s])
  {
  }

  lemma CreatingStops(p: Plan, k: nat, n: nat)
    requires p.Valid() && k < n <= SCRATCH && !Made(p.shared, p.sizes[k], p.page, p.mapped[k], p.answers[k])
    ensures !p.MakesAll(n)
  {
  }

  lemma FullyCleared(bs: seq<Scratch>, bs': seq<Scratch>, p: Plan, o: Owned, now: Owned, k: nat)
    requires p.Valid() && Creating(p, o, now, bs, k) && Cleared(bs', bs, k)
    ensures forall j :: 0 <= j < SCRATCH ==> bs'[j] == NONE
  {
  }

  /** The first k are forgotten, the others untouched. */
  predicate Cleared(now: seq<Scratch>, all: seq<Scratch>, k: nat) {
    |now| == |all| && forall j :: 0 <= j < |all| ==> now[j] == if j < k then NONE else all[j]
  }

  lemma ClearedStep(now: seq<Scratch>, now': seq<Scratch>, all: seq<Scratch>, k: nat)
    requires Cleared(now, all, k) && k < |all| && now' == now[k := NONE]
    ensures Cleared(now', all, k + 1)
  {
  }

  lemma NothingLeft(o: Owned, now: seq<Scratch>, all: seq<Scratch>, n: nat)
    requires Cleared(now, all, n) && n <= |all|
    ensures WithAll(o, now[..n]) == o
  {
    NothingToDestroy(o, now[..n]);
  }

  predicate Descends(stages: seq<Owned>, ss: seq<Scratch>) {
    |stages| == |ss| + 1 && forall k :: 0 <= k < |ss| ==> stages[k + 1] == Without(stages[k], ss[k])
  }

  lemma Descend(stages: seq<Owned>, ss: seq<Scratch>, k: nat)
    requires Descends(stages, ss) && k < |ss|
    ensures stages[k + 1] == Without(stages[k], ss[k])
  {
  }

  class Desk {
    var owned: Owned
    const buffers: array<Scratch>

    constructor (o: Owned)
      ensures owned == o && fresh(buffers) && buffers.Length == SCRATCH && forall k :: 0 <= k < SCRATCH ==>
              buffers[k] == NONE
    {
      owned := o;
      buffers := new Scratch[SCRATCH](_ => NONE);
    }

    /** A scratch buffer, or nothing at all: every failure gives back what was obtained before it. */
    method Create(shared: nat, requested: nat, page: nat, mapped: bool, a: Answer) returns (s: Scratch)
      requires page > 0 && (mapped ==> a.address != 0)
      modifies this`owned
      ensures owned == With(old(owned), s)
      ensures s == NONE || IsMade(s, requested, page, a)
      ensures s != NONE <==> Made(shared, requested, page, mapped, a)
    {
      s := NONE;
      NoneAdds(owned);
      if shared == 0 || requested == 0 || requested > MAX_REQUEST { return; }
      var bytes := Rounded(requested, page);
      if !mapped { return; }
      ghost var before := owned;
      owned := AddRange(owned, a.address, bytes);
      RangeBack(before, a.address, bytes);
      if a.resource == 0 {
        owned := DropRange(owned, a.address, bytes);
        return;
      }
      ghost var ranged := owned;
      owned := AddResource(owned, a.resource);
      ResourceBack(ranged, a.resource);
      if a.meta.None? || a.meta.value.0 == 0 || a.meta.value.0 > 65535 || a.dataSize != bytes ||
          a.meta.value.1 < bytes {
        owned := DropResource(owned, a.resource);
        owned := DropRange(owned, a.address, bytes);
        return;
      }
      s := Scratch(a.resource, a.address, bytes, a.meta.value.0);
      BothAdd(before, s);
    }

    method GiveBack(s: Scratch)
      modifies this`owned
      ensures owned == Without(old(owned), s)
    {
      ghost var o := owned;
      if s.resource != 0 { owned := DropResource(owned, s.resource); }
      assert owned == o.(resources := o.resources - ResourceOf(s));
      if s.backing != 0 && s.bytes != 0 { owned := DropRange(owned, s.backing, s.bytes); }
    }

    /** Give a buffer back and forget it; a forgotten one costs nothing more. */
    method Destroy(k: nat)
      requires k < buffers.Length
      modifies this`owned, buffers
      ensures owned == Without(old(owned), old(buffers[k])) && buffers[..] == old(buffers[..])[k := NONE]
    {
      GiveBack(buffers[k]);
      buffers[k] := NONE;
    }

    /** Destroy the first n buffers, in order. */
    method DestroyAll(n: nat, ghost o: Owned)
      requires n <= buffers.Length && owned == WithAll(o, buffers[..][..n])
      modifies this`owned, buffers
      ensures owned == o && Cleared(buffers[..], old(buffers[..]), n)
    {
      ghost var all := buffers[..];
      ghost var stages := Stages(o, all[..n]);
      var k := 0;
      while k < n
        invariant 0 <= k <= n && owned == stages[k] && Cleared(buffers[..], all, k)
      {
        ghost var now := buffers[..];
        assert now[k] == all[k] == all[..n][k];
        Descend(stages, all[..n], k);
        Destroy(k);
        ClearedStep(now, buffers[..], all, k);
        k := k + 1;
      }
    }

    /** Create up to `required` buffers, stopping at the first failure. */
    method CreateAll(p: Plan, required: nat) returns (created: nat)
      requires p.Valid() && required <= SCRATCH == buffers.Length && forall k :: 0 <= k < SCRATCH ==> buffers[k] == NONE
      modifies this`owned, buffers
      ensures created <= required && Creating(p, old(owned), owned, buffers[..], created)
      ensures created == required <==> p.MakesAll(required)
    {
      ghost var o := owned;
      created := 0;
      while created < required
        invariant 0 <= created <= required && Creating(p, o, owned, buffers[..], created)
      {
        var ok := CreateNext(p, created, o);
        if !ok {
          CreatingStops(p, created, required);
          return;
        }
        created := created + 1;
      }
    }

    /** Create the kth buffer. */
    method CreateNext(p: Plan, k: nat, ghost o: Owned) returns (ok: bool)
      requires p.Valid() && k < SCRATCH == buffers.Length && Creating(p, o, owned, buffers[..], k)
      modifies this`owned, buffers
      ensures ok <==> Made(p.shared, p.sizes[k], p.page, p.mapped[k], p.answers[k])
      ensures Creating(p, o, owned, buffers[..], if ok then k + 1 else k)
    {
      ghost var now, bs := owned, buffers[..];
      var s := Create(p.shared, p.sizes[k], p.page, p.mapped[k], p.answers[k]);
      if s == NONE {
        NoneAdds(now);
        return false;
      }
      buffers[k] := s;
      CreatingStep(p, o, now, owned, bs, k, s);
      ok := true;
    }

    /** The executor takes the first n buffers over and zeroes the caller's copies. */
    method Adopt(n: nat, ghost o: Owned) returns (adopted: seq<Scratch>)
      requires n <= buffers.Length && owned == WithAll(o, buffers[..][..n])
      modifies buffers
      ensures adopted == old(buffers[..])[..n] && owned == WithAll(WithAll(o, adopted), buffers[..][..n])
      ensures Cleared(buffers[..], old(buffers[..]), n)
    {
      adopted := buffers[..][..n];
      ghost var all := buffers[..];
      var k := 0;
      while k < n
        invariant 0 <= k <= n && Cleared(buffers[..], all, k)
      {
        ghost var now := buffers[..];
        buffers[k] := NONE;
        ClearedStep(now, buffers[..], all, k);
        k := k + 1;
      }
      NothingLeft(WithAll(o, adopted), buffers[..], all, n);
    }
  }
}
