/** The command walk (capture_walk.hpp) over the page cache of its reader (command_capture.hpp): every
    read is answered from one fixed partial snapshot, however memory changes, and the worklist, which
    grows while it is scanned, stays small and duplicate-free. */
module Capture {
  import opened Words

  type byte = b: int | 0 <= b < 0x100

  const PAGE := 4096
  const PAGES := 24
  const CALLS := 4096
  const SPACE := 0x1_0000_0000_0000 // 48-bit addresses

  /** n bytes from a on are inside the address space. */
  predicate Range(a: nat, n: nat) { n > 0 && a < SPACE && n <= SPACE - a }

  // ---- the page cache ----

  /** A page as first sampled: its content, or None for a page that could not be read or changed
      between two readings. */
  datatype Page = Page(base: nat, global: bool, content: Option<seq<byte>>) {
    predicate Valid() { content.Some? ==> |content.value| == PAGE }
  }

  /** The first entry for this page, or |cache|. */
  function Slot(cache: seq<Page>, base: nat, global: bool): (k: nat)
    ensures k <= |cache| && (k < |cache| ==> cache[k].base == base && cache[k].global == global)
    ensures forall j :: 0 <= j < k ==> !(cache[j].base == base && cache[j].global == global)
  {
    if cache == [] || (cache[0].base == base && cache[0].global == global) then 0
    else
      var rest := cache[1..];
      var k := Slot(rest, base, global);
      assert forall j :: 1 <= j <= k ==> cache[j] == rest[j - 1];
      1 + k
  }

  predicate CacheOk(cache: seq<Page>) {
    |cache| <= PAGES && forall k :: 0 <= k < |cache| ==> cache[k].Valid()
  }

  function Min(a: nat, b: nat): nat { if a < b then a else b }

  /** The snapshot has the byte at this address. */
  predicate Has(cache: seq<Page>, a: nat, global: bool)
    requires CacheOk(cache)
  {
    var k := Slot(cache, a / PAGE * PAGE, global);
    k < |cache| && cache[k].content.Some?
  }

  function ByteAt(cache: seq<Page>, a: nat, global: bool): byte
    requires CacheOk(cache) && Has(cache, a, global)
  {
    cache[Slot(cache, a / PAGE * PAGE, global)].content.value[a % PAGE]
  }

  /** The snapshot shows exactly these n bytes from va on. */
  predicate Shows(cache: seq<Page>, va: nat, n: nat, global: bool, bytes: seq<byte>)
    requires CacheOk(cache)
  {
    |bytes| == n && forall j {:trigger bytes[j]} :: 0 <= j < n ==> Shown(cache, va + j, global, bytes[j])
  }

  predicate Shown(cache: seq<Page>, a: nat, global: bool, b: byte)
    requires CacheOk(cache)
  {
    Has(cache, a, global) && b == ByteAt(cache, a, global)
  }

  lemma SlotIs(cache: seq<Page>, base: nat, global: bool, k: nat)
    requires k < |cache| && cache[k].base == base && cache[k].global == global
    requires forall j :: 0 <= j < k ==> !(cache[j].base == base && cache[j].global == global)
    ensures Slot(cache, base, global) == k
  {
    var first := Slot(cache, base, global);
    assert cache[k].base == base && cache[k].global == global;
    assert !(first < k);
  }

  lemma SlotStays(cache: seq<Page>, cache': seq<Page>, base: nat, global: bool)
    requires cache <= cache' && Slot(cache, base, global) < |cache|
    ensures Slot(cache', base, global) == Slot(cache, base, global)
  {
    var k, k' := Slot(cache, base, global), Slot(cache', base, global);
    assert cache'[k] == cache[k];
    assert k' <= k;
    assert cache'[k'] == cache[k'];
  }

  /** What the snapshot shows, it shows ever after. */
  lemma ShowsStays(cache: seq<Page>, cache': seq<Page>, va: nat, n: nat, global: bool, bytes: seq<byte>)
    requires CacheOk(cache) && CacheOk(cache') && cache <= cache' && Shows(cache, va, n, global, bytes)
    ensures Shows(cache', va, n, global, bytes)
  {
    forall j | 0 <= j < n ensures Shown(cache', va + j, global, bytes[j]) {
      assert Shown(cache, va + j, global, bytes[j]);
      SlotStays(cache, cache', (va + j) / PAGE * PAGE, global);
    }
  }

  /** One answered read. */
  datatype Answer = Answer(va: nat, n: nat, global: bool, bytes: seq<byte>)

  /** Every read so far, of all of the walk, is what the one snapshot holds. */
  predicate Consistent(cache: seq<Page>, log: seq<Answer>)
    requires CacheOk(cache)
  {
    forall k :: 0 <= k < |log| ==> Shows(cache, log[k].va, log[k].n, log[k].global, log[k].bytes)
  }

  lemma ConsistentStays(cache: seq<Page>, cache': seq<Page>, log: seq<Answer>)
    requires CacheOk(cache) && CacheOk(cache') && cache <= cache' && Consistent(cache, log)
    ensures Consistent(cache', log)
  {
    forall k | 0 <= k < |log| ensures Shows(cache', log[k].va, log[k].n, log[k].global, log[k].bytes) {
      ShowsStays(cache, cache', log[k].va, log[k].n, log[k].global, log[k].bytes);
    }
  }

  /** What memory would show a page as, at one moment; it may be different at the next. */
  type Memory = (nat, bool) -> Option<seq<byte>>

  /** A sample that is not one whole stable page is kept as None. */
  function Sampled(sample: Option<seq<byte>>): Option<seq<byte>> {
    if sample.Some? && |sample.value| == PAGE then sample else None
  }

  /** The cache once a page was asked for: it enters with its first sample, if it is new and there is room. */
  function Touched(cache: seq<Page>, base: nat, global: bool, sample: Option<seq<byte>>): seq<Page> {
    if Slot(cache, base, global) < |cache| || |cache| == 24 then cache
        else cache + [Page(base, global, Sampled(sample))]
  }

  lemma SlotMissing(cache: seq<Page>, base: nat, global: bool)
    requires forall j :: 0 <= j < |cache| ==> !(cache[j].base == base && cache[j].global == global)
    ensures Slot(cache, base, global) == |cache|
  {
  }

  predicate HasAll(cache: seq<Page>, va: nat, n: nat, global: bool)
    requires CacheOk(cache)
  {
    forall a :: va <= a < va + n ==> Has(cache, a, global)
  }

  lemma ShowsHas(cache: seq<Page>, va: nat, n: nat, global: bool, bytes: seq<byte>)
    requires CacheOk(cache) && Shows(cache, va, n, global, bytes)
    ensures HasAll(cache, va, n, global)
  {
    forall a | va <= a < va + n ensures Has(cache, a, global) {
      assert Shown(cache, va + (a - va), global, bytes[a - va]);
    }
  }

  class WalkReader {
    const memory: nat -> Memory // by call
    const late: nat -> bool     // by call: the time budget is spent
    var cache: seq<Page>
    var calls: nat
    var budgetHit: bool
    ghost var log: seq<Answer>

    ghost predicate Valid()
      reads this
    {
      CacheOk(cache) && Consistent(cache, log)
    }

    constructor (memory: nat -> Memory, late: nat -> bool)
      ensures Valid() && cache == [] && log == [] && calls == 0
    {
      this.memory, this.late := memory, late;
      cache := [];
      log := [];
      calls, budgetHit := 0, false;
    }

    /** Make sure the cache has an entry for this page, sampling it now if it has none. */
    method Touch(base: nat, global: bool) returns (k: nat, ok: bool)
      requires CacheOk(cache)
      modifies this`cache, this`budgetHit
      ensures CacheOk(cache) && cache == Touched(old(cache), base, global, memory(calls)(base, global))
      ensures k == Slot(cache, base, global) && (ok <==> k < |cache|)
    {
      k := 0;
      while k < |cache| && !(cache[k].base == base && cache[k].global == global)
        invariant 0 <= k <= |cache|
        invariant forall j :: 0 <= j < k ==> !(cache[j].base == base && cache[j].global == global)
      {
        k := k + 1;
      }
      if k == |cache| {
        SlotMissing(cache, base, global);
        if |cache| == PAGES {
          budgetHit := true;
          return k, false;
        }
        cache := cache + [Page(base, global, Sampled(memory(calls)(base, global)))];
      }
      SlotIs(cache, base, global, k);
      ok := true;
    }

    /** Read n bytes. An answer is what the snapshot holds, now and ever after; and there is one
        exactly when the request is in bounds, the budget lasts, and the snapshot has every byte. */
    method Read(va: nat, n: nat, global: bool) returns (out: Option<seq<byte>>)
      requires Valid()
      modifies this
      ensures Valid() && old(cache) <= cache
      ensures out.Some? ==>
                Shows(cache, va, n, global, out.value) && log == old(log) + [Answer(va, n, global, out.value)]
      ensures out.None? ==> log == old(log)
      ensures calls == old(calls) + if Range(va, n) && n <= 1024 then 1 else 0
      ensures out.Some? <==>
              1 <= n <= 1024 && va + n <= 0x1_0000_0000_0000 && calls <= 4096 && !late(calls) &&
              HasAll(cache, va, n, global)
    {
      if !Range(va, n) || n > 1024 { return None; }
      calls := calls + 1;
      if calls > CALLS || late(calls) {
        budgetHit := true;
        return None;
      }
      var bytes: seq<byte>, at: nat, left: nat := [], va, n;
      ghost var start := cache;
      while left > 0
        invariant left <= n && at == va + (n - left) && log == old(log) && calls == old(calls) + 1
        invariant Reading(start, cache, va, n - left, global, bytes)
      {
        ghost var before := cache;
        var k, ok := Touch(at / PAGE * PAGE, global);
        if !ok || cache[k].content.None? {
          ReadFails(start, before, cache, log, va, n, at, global, memory(calls)(at / PAGE * PAGE, global));
          return None;
        }
        var m := Min(PAGE - at % PAGE, left);
        var piece := cache[k].content.value[at % PAGE..at % PAGE + m];
        ReadMore(start, before, cache, va, n - left, m, at, global, bytes, piece,
            memory(calls)(at / PAGE * PAGE, global));
        bytes := bytes + piece;
        at, left := at + m, left - m;
      }
      ConsistentStays(start, cache, log);
      ShowsHas(cache, va, n, global, bytes);
      log := log + [Answer(va, n, global, bytes)];
      out := Some(bytes);
    }
  }

  /** Midway through a read: `done` bytes are copied. */
  ghost predicate Reading(start: seq<Page>, cache: seq<Page>, va: nat, done: nat, global: bool, bytes: seq<byte>) {
    CacheOk(start) && CacheOk(cache) && start <= cache && Shows(cache, va, done, global, bytes)
  }

  lemma ReadMore(start: seq<Page>, cache: seq<Page>, cache': seq<Page>, va: nat, done: nat, m: nat, at: nat,
                 global: bool, bytes: seq<byte>, piece: seq<byte>, sample: Option<seq<byte>>)
    requires Reading(start, cache, va, done, global, bytes) && CacheOk(cache') && at == va + done &&
             m <= PAGE - at % PAGE
    requires cache' == Touched(cache, at / PAGE * PAGE, global, sample)
    requires var k := Slot(cache', at / PAGE * PAGE, global);
             k < |cache'| && cache'[k].content.Some? && piece == cache'[k].content.value[at % PAGE..at % PAGE + m]
    ensures Reading(start, cache', va, done + m, global, bytes + piece)
  {
    assert cache <= cache';
    PieceShows(cache', at, m, global, Slot(cache', at / PAGE * PAGE, global), piece);
    ReadOn(start, cache, cache', va, done, m, global, bytes, piece);
  }

  lemma ReadOn(start: seq<Page>, cache: seq<Page>, cache': seq<Page>, va: nat, done: nat, m: nat, global: bool,
               bytes: seq<byte>, piece: seq<byte>)
    requires Reading(start, cache, va, done, global, bytes) && CacheOk(cache') && cache <= cache'
    requires Shows(cache', va + done, m, global, piece)
    ensures Reading(start, cache', va, done + m, global, bytes + piece)
  {
    ShowsStays(cache, cache', va, done, global, bytes);
    ShowsMore(cache', va, done, m, global, bytes, piece);
    Longer(start, cache, cache');
  }

  lemma ReadFails(start: seq<Page>, cache: seq<Page>, cache': seq<Page>, log: seq<Answer>, va: nat, n: nat, at: nat,
                  global: bool, sample: Option<seq<byte>>)
    requires CacheOk(start) && CacheOk(cache) && CacheOk(cache') && start <= cache && Consistent(start, log) &&
             va <= at < va + n
    requires cache' == Touched(cache, at / PAGE * PAGE, global, sample)
    requires var k := Slot(cache', at / PAGE * PAGE, global); k == |cache'| || cache'[k].content.None?
    ensures start <= cache' && Consistent(cache', log) && !HasAll(cache', va, n, global)
  {
    assert cache <= cache';
    ConsistentStays(start, cache', log);
    assert !Has(cache', at, global);
  }

  lemma SamePage(va: nat, a: nat)
    requires a < PAGE - va % PAGE
    ensures (va + a) / PAGE == va / PAGE && (va + a) % PAGE == va % PAGE + a
  {
  }

  /** Part of one page. */
  lemma PieceShows(cache: seq<Page>, va: nat, m: nat, global: bool, k: nat, piece: seq<byte>)
    requires CacheOk(cache) && m <= PAGE - va % PAGE
    requires k == Slot(cache, va / PAGE * PAGE, global) < |cache| && cache[k].content.Some?
    requires piece == cache[k].content.value[va % PAGE..va % PAGE + m]
    ensures Shows(cache, va, m, global, piece)
  {
    forall j | 0 <= j < m ensures Shown(cache, va + j, global, piece[j]) {
      SamePage(va, j);
    }
  }

  /** Two answers that adjoin make one. */
  lemma ShowsMore(cache: seq<Page>, va: nat, a: nat, b: nat, global: bool, x: seq<byte>, y: seq<byte>)
    requires CacheOk(cache) && Shows(cache, va, a, global, x) && Shows(cache, va + a, b, global, y)
    ensures Shows(cache, va, a + b, global, x + y)
  {
    forall j | 0 <= j < a + b ensures Shown(cache, va + j, global, (x + y)[j]) {
      if j >= a {
        assert Shown(cache, va + a + (j - a), global, y[j - a]);
      } else {
        assert Shown(cache, va + j, global, x[j]);
      }
    }
  }

  // ---- the walk ----

  datatype Entry = Entry(va: nat, global: bool)

  predicate Distinct<T(==)>(s: seq<T>) {
    forall j, k :: 0 <= j < k < |s| ==> s[j] != s[k]
  }

  function Word(bytes: seq<byte>, k: nat): word
    requires 4 * k + 4 <= |bytes|
  {
    (bytes[4 * k] as int) + 0x100 * (bytes[4 * k + 1] as int) + 0x1_0000 * (bytes[4 * k + 2] as int) +
    0x100_0000 * (bytes[4 * k + 3] as int)
  }

  /** The packet's size in words, or 0 for one the walk refuses. */
  function PacketWords(h: word): nat {
    if h == 0 || (Type(h) == 0 && (Opcode(h) == 2 || Opcode(h) == 5 || Opcode(h) == 7 || Opcode(h) == 10)) then 1
    else if h / 0x1_0000 == 0x6904 || h / 0x1_0000 == 0x680b then 1
    else if Type(h) == 3 || Type(h) == 0 then h % 256 + 2
    else 0
  }

  /** A 64-bit address in two words, cut down to a multiple of `align`. */
  function Address(high: word, low: word, align: nat): nat
    requires align > 0
  {
    (high * 0x1_0000_0000 + low) / align * align
  }

  const ENTRIES := 8
  const PACKETS := 512
  const BASES := 4
  const OFFSETS := 12
  const STEPS := 256

  lemma Longer<T>(a: seq<T>, b: seq<T>, c: seq<T>)
    requires a <= b <= c
    ensures a <= c
  {
  }

  // ---- where the walk's finds come from ----

  /** This packet chains to another batch. */
  predicate NamesEntry(w: seq<byte>, e: Entry) {
    |w| == 12 && var h := Word(w, 0);
    h / 0x80_0000 == 0x31 && h % 256 == 1 && e == Entry(Address(Word(w, 2), Word(w, 1), 4), h / 256 % 2 == 0)
  }

  /** This packet sets the instruction base. */
  predicate NamesBase(w: seq<byte>, x: nat) {
    |w| >= 64 && Word(w, 0) / 0x1_0000 == 0x6101 && Word(w, 10) % 2 == 1 && x == Address(Word(w, 11), Word(w, 10), PAGE)
  }

  /** This packet sets a shader's offset: the vertex shader's, or one of the pixel shader's three. */
  predicate NamesOffset(w: seq<byte>, x: nat) {
    (|w| == 36 && Word(w, 0) / 0x1_0000 == 0x7810 && x == Address(Word(w, 2), Word(w, 1), 64)) ||
    (|w| == 48 && Word(w, 0) / 0x1_0000 == 0x7820 &&
     (x == Address(Word(w, 2), Word(w, 1), 64) || x == Address(Word(w, 9), Word(w, 8), 64) ||
         x == Address(Word(w, 11), Word(w, 10), 64)))
  }

  /** Some answered read shows a packet that says so. */
  predicate EntryKnown(log: seq<Answer>, e: Entry) { exists i :: 0 <= i < |log| && NamesEntry(log[i].bytes, e) }

  predicate BaseKnown(log: seq<Answer>, x: nat) { exists i :: 0 <= i < |log| && NamesBase(log[i].bytes, x) }

  predicate OffsetKnown(log: seq<Answer>, x: nat) { exists i :: 0 <= i < |log| && NamesOffset(log[i].bytes, x) }

  /** Nothing but the seeds was made up: every other find was named by a packet the walk read. */
  predicate AllKnown(seeds: nat, entries: seq<Entry>, bases: seq<nat>, offsets: seq<nat>, log: seq<Answer>) {
    (forall k :: seeds <= k < |entries| ==> EntryKnown(log, entries[k])) &&
    (forall k :: 0 <= k < |bases| ==> BaseKnown(log, bases[k])) &&
        (forall k :: 0 <= k < |offsets| ==> OffsetKnown(log, offsets[k]))
  }

  lemma AllKnownStays(seeds: nat, entries: seq<Entry>, bases: seq<nat>, offsets: seq<nat>, log: seq<Answer>,
      log': seq<Answer>)
    requires AllKnown(seeds, entries, bases, offsets, log) && log <= log'
    ensures AllKnown(seeds, entries, bases, offsets, log')
  {
    forall k | seeds <= k < |entries| ensures EntryKnown(log', entries[k]) {
      var i :| 0 <= i < |log| && NamesEntry(log[i].bytes, entries[k]);
      assert NamesEntry(log'[i].bytes, entries[k]);
    }
    forall k | 0 <= k < |bases| ensures BaseKnown(log', bases[k]) {
      var i :| 0 <= i < |log| && NamesBase(log[i].bytes, bases[k]);
      assert NamesBase(log'[i].bytes, bases[k]);
    }
    forall k | 0 <= k < |offsets| ensures OffsetKnown(log', offsets[k]) {
      var i :| 0 <= i < |log| && NamesOffset(log[i].bytes, offsets[k]);
      assert NamesOffset(log'[i].bytes, offsets[k]);
    }
  }

  lemma EntryKnownToo(seeds: nat, entries: seq<Entry>, bases: seq<nat>, offsets: seq<nat>, log: seq<Answer>,
                      w: seq<byte>, e: Entry)
    requires AllKnown(seeds, entries, bases, offsets, log) && NamesEntry(w, e)
    requires exists i :: 0 <= i < |log| && log[i].bytes == w
    ensures AllKnown(seeds, entries + [e], bases, offsets, log) && e.va % 4 == 0
  {
    var i :| 0 <= i < |log| && log[i].bytes == w;
    assert NamesEntry(log[i].bytes, e);
    forall k | seeds <= k < |entries + [e]| ensures EntryKnown(log, (entries + [e])[k]) {
      if k < |entries| { assert EntryKnown(log, entries[k]); } else { assert EntryKnown(log, e); }
    }
  }

  // ---- the paths the walk follows ----

  predicate IsEnd(w: seq<byte>)
    requires |w| >= 4
  {
    Type(Word(w, 0)) == 0 && Opcode(Word(w, 0)) == 10
  }

  function PathEnd(e: Entry, path: seq<Answer>): nat {
    if path == [] then e.va else path[|path| - 1].va + path[|path| - 1].n
  }

  /** One packet of a path, read whole. */
  predicate IsPacket(a: Answer, global: bool) {
    a.global == global && 4 <= |a.bytes| == a.n == 4 * PacketWords(Word(a.bytes, 0))
  }

  /** These packets, one behind the other from the entry on, up to a batch end at most. */
  predicate IsPath(e: Entry, path: seq<Answer>) {
    (forall k :: 0 <= k < |path| ==> IsPacket(path[k], e.global) && path[k].va == PathEnd(e, path[..k])) &&
    (forall k :: 0 <= k < |path| - 1 ==> !IsEnd(path[k].bytes))
  }

  /** Every batch this packet chains to is an entry, or the walk says that it gave up some. */
  ghost predicate Chases(a: Answer, entries: seq<Entry>, truncated: bool) {
    forall x :: NamesEntry(a.bytes, x) && Range(x.va, 4) ==> x in entries || truncated
  }

  /** The path was read, and all it chains to is to be followed too. */
  ghost predicate Chased(e: Entry, path: seq<Answer>, log: seq<Answer>, entries: seq<Entry>, truncated: bool) {
    IsPath(e, path) && forall k :: 0 <= k < |path| ==> path[k] in log && Chases(path[k], entries, truncated)
  }

  lemma ChasedStays(e: Entry, path: seq<Answer>, log: seq<Answer>, log': seq<Answer>, entries: seq<Entry>,
                    entries': seq<Entry>, truncated: bool, truncated': bool)
    requires Chased(e, path, log, entries, truncated) && log <= log' && entries <= entries' &&
             (truncated ==> truncated')
    ensures Chased(e, path, log', entries', truncated')
  {
  }

  lemma ChasedMore(e: Entry, path: seq<Answer>, a: Answer, log: seq<Answer>, entries: seq<Entry>, truncated: bool)
    requires Chased(e, path, log, entries, truncated) && a in log && Chases(a, entries, truncated)
    requires IsPacket(a, e.global) && a.va == PathEnd(e, path) && (path != [] ==> !IsEnd(path[|path| - 1].bytes))
    ensures Chased(e, path + [a], log, entries, truncated)
  {
    var longer := path + [a];
    forall k | 0 <= k < |longer| ensures longer[k].va == PathEnd(e, longer[..k]) {
      if k < |path| { assert longer[..k] == path[..k]; } else { assert longer[..k] == path; }
    }
  }

  /** Each entry with its path, as far as they were followed. */
  ghost predicate AllChased(entries: seq<Entry>, paths: seq<seq<Answer>>, log: seq<Answer>, truncated: bool) {
    |paths| <= |entries| && forall q :: 0 <= q < |paths| ==> Chased(entries[q], paths[q], log, entries, truncated)
  }

  lemma AllChasedStays(entries: seq<Entry>, entries': seq<Entry>, paths: seq<seq<Answer>>, log: seq<Answer>,
                       log': seq<Answer>, truncated: bool, truncated': bool)
    requires AllChased(entries, paths, log, truncated) && log <= log' && entries <= entries'
    requires truncated ==> truncated'
    ensures AllChased(entries', paths, log', truncated')
  {
    forall q | 0 <= q < |paths| ensures Chased(entries'[q], paths[q], log', entries', truncated') {
      ChasedStays(entries[q], paths[q], log, log', entries, entries', truncated, truncated');
    }
  }

  lemma AllChasedMore(entries: seq<Entry>, entries': seq<Entry>, paths: seq<seq<Answer>>, path: seq<Answer>,
                      log: seq<Answer>, log': seq<Answer>, truncated: bool, truncated': bool)
    requires AllChased(entries, paths, log, truncated) && log <= log' && entries <= entries' && |paths| < |entries|
    requires (truncated ==> truncated') && Chased(entries[|paths|], path, log', entries', truncated')
    ensures AllChased(entries', paths + [path], log', truncated')
  {
    AllChasedStays(entries, entries', paths, log, log', truncated, truncated');
  }

  /** The reader gives no packet at pc: it is out of bounds or budget, the snapshot lacks its header,
      or the header is of no packet the snapshot has. */
  ghost predicate Stuck(r: WalkReader, pc: nat, global: bool)
    requires CacheOk(r.cache)
    reads r
  {
    r.calls > CALLS || r.late(r.calls) || !Range(pc, 4) || !HasAll(r.cache, pc, 4, global) ||
    exists head :: Shows(r.cache, pc, 4, global, head) && Unfit(r.cache, pc, global, PacketWords(Word(head, 0)))
  }

  predicate Unfit(cache: seq<Page>, pc: nat, global: bool, n: nat)
    requires CacheOk(cache)
  {
    n == 0 || n > 256 || !Range(pc, 4 * n) || !HasAll(cache, pc, 4 * n, global)
  }

  // ---- draws ----

  /** A vertex buffer slot; unbound when not valid. */
  datatype Vertices = Vertices(base: nat, size: nat, pitch: nat, valid: bool)

  const NO_VERTICES := Vertices(0, 0, 0, false)

  /** The index buffer and the drawing mode. */
  datatype Indices = Indices(base: nat, size: nat, format: nat, have: bool, instanced: bool)

  const SLOTS := 32

  /** What a vertex buffer packet binds, from its group of four words at k. */
  function Binding(w: seq<byte>, k: nat): Vertices
    requires 4 * k + 16 <= |w|
  {
    Vertices(Word(w, k + 2) * 0x1_0000_0000 + Word(w, k + 1), Word(w, k + 3), Word(w, k) % 4096,
             Word(w, k) / 0x2000 % 2 == 0 && Word(w, k) / 0x4000 % 2 == 1)
  }

  /** The slots after the groups from word k on, each naming one by its upper six bits, are bound in turn. */
  function Rebound(vb: seq<Vertices>, w: seq<byte>, k: nat): (out: seq<Vertices>)
    requires |vb| == SLOTS
    ensures |out| == SLOTS
    decreases |w| - 4 * k
  {
    if 4 * k + 16 > |w| then vb
    else
      var slot := Word(w, k) / 0x400_0000;
      Rebound(if slot < SLOTS then vb[slot := Binding(w, k)] else vb, w, k + 4)
  }

  /** Every group from word k on names a slot there is. */
  predicate GroupsInside(w: seq<byte>, k: nat)
    decreases |w| - 4 * k
  {
    4 * k + 16 > |w| || (Word(w, k) / 0x400_0000 < SLOTS && GroupsInside(w, k + 4))
  }

  predicate BindsVertices(w: seq<byte>) {
    |w| >= 4 && Word(w, 0) / 0x1_0000 == 0x7808 && (|w| / 4 - 1) % 4 == 0
  }

  /** This packet names no vertex buffer slot beyond the array. */
  predicate SlotsInside(w: seq<byte>) { BindsVertices(w) ==> GroupsInside(w, 1) }

  /** No packet of this path does. */
  predicate PathInside(path: seq<Answer>) {
    path == [] || (PathInside(path[..|path| - 1]) && SlotsInside(path[|path| - 1].bytes))
  }

  /** A path that went on by one packet or not at all, and whether all was inside before and after it. */
  predicate Grown(path: seq<Answer>, longer: seq<Answer>, inside: bool, inside': bool) {
    (longer == path && inside' == inside) ||
    (|longer| == |path| + 1 && longer == path + [longer[|path|]] &&
     inside' == (inside && SlotsInside(longer[|path|].bytes)))
  }

  lemma PathInsideStep(path: seq<Answer>, longer: seq<Answer>, was: bool, inside: bool, inside': bool)
    requires Grown(path, longer, inside, inside') && (inside <==> was && PathInside(path))
    ensures inside' <==> was && PathInside(longer)
  {
    if longer != path { assert longer[..|path|] == path; }
  }

  /** No packet of these paths does. */
  predicate PathsInside(paths: seq<seq<Answer>>) {
    paths == [] || (PathsInside(paths[..|paths| - 1]) && PathInside(paths[|paths| - 1]))
  }

  lemma PathsInsideMore(paths: seq<seq<Answer>>, path: seq<Answer>)
    ensures PathsInside(paths + [path]) <==> PathsInside(paths) && PathInside(path)
  {
    assert (paths + [path])[..|paths|] == paths;
  }

  lemma EndInside(w: seq<byte>)
    requires |w| >= 4 && IsEnd(w)
    ensures SlotsInside(w)
  {
  }

  /** Only direct, single-instance indexed draws with base vertex zero and at most 64 indices. */
  predicate Drawable(w: seq<byte>, x: Indices)
    requires |w| >= 28
  {
    var h := Word(w, 0);
    !x.instanced && x.have && x.format <= 2 && h / 256 % 2 == 0 && h / 1024 % 2 == 0 && Word(w, 1) / 256 % 2 == 1 &&
    0 < Word(w, 2) <= 64 && Word(w, 4) == 1 && Word(w, 5) == 0 && Word(w, 6) == 0
  }

  function Width(format: nat): nat { if format == 0 then 1 else if format == 1 then 2 else 4 }

  /** This answer lies inside the index buffer. */
  predicate InIndices(a: Answer, x: Indices) {
    !a.global && x.base <= a.va && a.va + a.n <= x.base + x.size
  }

  /** This answer is one whole vertex of a bound buffer, and inside it. */
  predicate InVertices(a: Answer, v: Vertices)
    requires v.pitch > 0
  {
    !a.global && v.valid && a.n == v.pitch && v.base <= a.va && (a.va - v.base) % v.pitch == 0 &&
        a.va + a.n <= v.base + v.size
  }

  predicate InBuffers(a: Answer, x: Indices, vb: seq<Vertices>) {
    InIndices(a, x) || exists s :: 0 <= s < |vb| && vb[s].pitch > 0 && InVertices(a, vb[s])
  }

  /** Every answer from `from` on is inside a bound buffer. */
  predicate AllInBuffers(log: seq<Answer>, from: nat, x: Indices, vb: seq<Vertices>) {
    forall k :: from <= k < |log| ==> InBuffers(log[k], x, vb)
  }

  /** This answer is the vertex of one of these indices in a bound buffer. */
  predicate Fetches(a: Answer, v: Vertices, named: seq<nat>) {
    v.valid && !a.global && a.n == v.pitch && exists k :: 0 <= k < |named| && a.va == v.base + named[k] * v.pitch
  }

  predicate FetchedIn(a: Answer, vb: seq<Vertices>, named: seq<nat>) {
    exists s :: 0 <= s < |vb| && Fetches(a, vb[s], named)
  }

  /** Every answer from `from` on is such a vertex. */
  predicate AllFetched(log: seq<Answer>, from: nat, vb: seq<Vertices>, named: seq<nat>) {
    forall k :: from <= k < |log| ==> FetchedIn(log[k], vb, named)
  }

  lemma FetchedMore(log: seq<Answer>, from: nat, a: Answer, vb: seq<Vertices>, named: seq<nat>, k: nat, slot: nat)
    requires AllFetched(log, from, vb, named) && k < |named| && slot < |vb| && vb[slot].valid && !a.global
    requires a.n == vb[slot].pitch && a.va == vb[slot].base + named[k] * vb[slot].pitch
    ensures AllFetched(log + [a], from, vb, named)
  {
    assert Fetches(a, vb[slot], named);
    assert FetchedIn(a, vb, named);
  }

  /** The n little-endian numbers of `width` bytes each. */
  function Numbers(values: seq<byte>, n: nat, width: nat): (named: seq<nat>)
    requires |values| == n * width
    ensures |named| == n
  {
    seq(n, i requires 0 <= i < n => NumberAt(values, n, width, i))
  }

  function NumberAt(values: seq<byte>, n: nat, width: nat, i: nat): nat
    requires |values| == n * width && i < n
  {
    IndexInside(i, n, width);
    Little(values[i * width..(i + 1) * width])
  }

  lemma NumberIs(values: seq<byte>, n: nat, width: nat, i: nat)
    requires |values| == n * width && i < n
    ensures i * width <= (i + 1) * width <= |values|
    ensures Numbers(values, n, width)[i] == Little(values[i * width..(i + 1) * width])
  {
    IndexInside(i, n, width);
    assert Numbers(values, n, width)[i] == NumberAt(values, n, width, i);
  }

  /** The little-endian number in these bytes. */
  function Little(bytes: seq<byte>): nat {
    if bytes == [] then 0 else (bytes[0] as int) + 0x100 * Little(bytes[1..])
  }

  lemma VertexIn(log: seq<Answer>, from: nat, a: Answer, index: nat, x: Indices, vb: seq<Vertices>, slot: nat)
    requires AllInBuffers(log, from, x, vb) && slot < |vb| && vb[slot].valid && vb[slot].pitch > 0
    requires a.va == vb[slot].base + index * vb[slot].pitch && a.n == vb[slot].pitch && !a.global
    requires index * vb[slot].pitch + vb[slot].pitch <= vb[slot].size
    ensures AllInBuffers(log + [a], from, x, vb)
  {
    var p := vb[slot].pitch;
    Multiple(index, p);
    assert InVertices(a, vb[slot]);
    assert InBuffers(a, x, vb);
  }

  lemma Multiple(k: nat, p: nat)
    requires p > 0
    ensures k * p >= 0 && k * p % p == 0
  {
    var n, q := k * p, k * p / p;
    assert n == p * k;
    assert q < k ==> p * (q + 1) <= p * k;
    assert q > k ==> p * q >= p * (k + 1);
  }

  lemma IndexInside(i: nat, n: nat, width: nat)
    requires i < n
    ensures i * width <= (i + 1) * width <= n * width
  {
    assert n * width == (i + 1) * width + (n - i - 1) * width;
  }

  lemma FourTimes(n: nat)
    ensures 4 * n % 4 == 0
  {
  }

  /** The whole packet begins with the header that was read before it. */
  lemma SameHead(cache: seq<Page>, cache': seq<Page>, pc: nat, n: nat, global: bool, head: seq<byte>, body: seq<byte>)
    requires CacheOk(cache) && CacheOk(cache') && cache <= cache' && n >= 4
    requires Shows(cache, pc, 4, global, head) && Shows(cache', pc, n, global, body)
    ensures head == body[..4] && Word(head, 0) == Word(body, 0)
  {
    ShowsStays(cache, cache', pc, 4, global, head);
    forall j | 0 <= j < 4 ensures head[j] == body[j] {
      assert Shown(cache', pc + j, global, head[j]) && Shown(cache', pc + j, global, body[j]);
    }
  }

  /** Where a path began. */
  datatype Start = Start(entries: seq<Entry>, cache: seq<Page>, log: seq<Answer>, truncated: bool, inside: bool)

  class Audit {
    var entries: seq<Entry>
    var bases: seq<nat>
    var offsets: seq<nat>
    var visited: nat
    var packets: nat
    var draws: nat
    var indices: nat
    var vertices: nat
    var shaders: nat
    var refused: nat
    var truncated: bool
    ghost var inside: bool // no packet named a vertex buffer slot beyond the array

    /** Within the caps, with no duplicates, and every address one a walk may start from. */
    ghost predicate Valid()
      reads this
    {
      |entries| <= ENTRIES && Distinct(entries) && |bases| <= BASES && Distinct(bases) && |offsets| <= OFFSETS &&
          Distinct(offsets) &&
      draws <= packets <= PACKETS &&
      forall k :: 0 <= k < |entries| ==> Range(entries[k].va, 4) && entries[k].va % 4 == 0
    }

    constructor ()
      ensures Valid() && entries == [] && visited == 0 && packets == 0 && inside && bases == [] && offsets == []
    {
      entries, bases, offsets := [], [], [];
      visited, packets, draws, indices, vertices := 0, 0, 0, 0, 0;
      shaders, refused, truncated, inside := 0, 0, false, true;
    }

    /** Add a candidate, unless it is malformed, known, or one too many. */
    method QueueCandidate(va: nat, global: bool)
      requires Valid()
      modifies this`entries, this`refused, this`truncated
      ensures Valid() && refused == old(refused) + if va <= 0xFFFF_FFFF_FFFC && va % 4 == 0 then 0 else 1
      ensures var e, ok := Entry(va, global), va <= 0xFFFF_FFFF_FFFC && va % 4 == 0;
              entries == (if ok && e !in old(entries) && old(|entries|) < 8 then old(entries) + [e]
                  else old(entries)) &&
              truncated == (old(truncated) || (ok && e !in old(entries) && old(|entries|) == 8))
    {
      if !Range(va, 4) || va % 4 != 0 {
        refused := refused + 1;
        return;
      }
      var i := 0;
      while i < |entries|
        invariant 0 <= i <= |entries| && forall k :: 0 <= k < i ==> entries[k] != Entry(va, global)
      {
        if entries[i] == Entry(va, global) { return; }
        i := i + 1;
      }
      if |entries| == ENTRIES {
        truncated := true;
        return;
      }
      entries := entries + [Entry(va, global)];
    }

    method UniqueBase(x: nat)
      requires Valid()
      modifies this`bases, this`truncated
      ensures Valid() && bases == if x in old(bases) || old(|bases|) == 4 then old(bases) else old(bases) + [x]
      ensures truncated == (old(truncated) || (x !in old(bases) && old(|bases|) == 4))
    {
      if x in bases { return; }
      if |bases| < BASES { bases := bases + [x]; } else { truncated := true; }
    }

    method UniqueOffset(x: nat)
      requires Valid()
      modifies this`offsets, this`truncated
      ensures Valid()
      ensures offsets == if x in old(offsets) || old(|offsets|) == 12 then old(offsets) else old(offsets) + [x]
      ensures truncated == (old(truncated) || (x !in old(offsets) && old(|offsets|) == 12))
    {
      if x in offsets { return; }
      if |offsets| < OFFSETS { offsets := offsets + [x]; } else { truncated := true; }
    }

    /** What one packet contributes: a chained batch, an instruction base, shader offsets. */
    method Collect(w: seq<byte>, n: nat, ghost seeds: nat, ghost log: seq<Answer>)
      requires Valid() && |w| == 4 * n && n > 0 && AllKnown(seeds, entries, bases, offsets, log)
      requires exists i :: 0 <= i < |log| && log[i].bytes == w
      modifies this`entries, this`bases, this`offsets, this`refused, this`truncated
      ensures Valid() && old(entries) <= entries && AllKnown(seeds, entries, bases, offsets, log)
      ensures old(truncated) ==> truncated
      ensures forall e :: NamesEntry(w, e) && Range(e.va, 4) ==> e in entries || truncated
      ensures forall x :: NamesBase(w, x) ==> x in bases || truncated
      ensures forall x :: NamesOffset(w, x) ==> x in offsets || truncated
    {
      CollectEntry(w, n, seeds, log);
      CollectBase(w, n, seeds, log);
      CollectOffsets(w, n, seeds, log);
    }

    method CollectEntry(w: seq<byte>, n: nat, ghost seeds: nat, ghost log: seq<Answer>)
      requires Valid() && |w| == 4 * n && n > 0 && AllKnown(seeds, entries, bases, offsets, log)
      requires exists i :: 0 <= i < |log| && log[i].bytes == w
      modifies this`entries, this`refused, this`truncated
      ensures Valid() && old(entries) <= entries && AllKnown(seeds, entries, bases, offsets, log)
      ensures old(truncated) ==> truncated
      ensures forall e :: NamesEntry(w, e) && Range(e.va, 4) ==> e in entries || truncated
    {
      var h := Word(w, 0);
      if h / 0x80_0000 == 0x31 && h % 256 == 1 && n == 3 {
        var e := Entry(Address(Word(w, 2), Word(w, 1), 4), h / 256 % 2 == 0);
        EntryKnownToo(seeds, entries, bases, offsets, log, w, e);
        QueueNamed(e, seeds, log);
      }
    }

    /** Queue a candidate that is known, and aligned. */
    method QueueNamed(e: Entry, ghost seeds: nat, ghost log: seq<Answer>)
      requires Valid() && AllKnown(seeds, entries, bases, offsets, log) && e.va % 4 == 0
      requires AllKnown(seeds, entries + [e], bases, offsets, log)
      modifies this`entries, this`refused, this`truncated
      ensures Valid() && old(entries) <= entries && AllKnown(seeds, entries, bases, offsets, log)
      ensures (old(truncated) ==> truncated) && (Range(e.va, 4) ==> e in entries || truncated)
    {
      QueueCandidate(e.va, e.global);
    }

    method CollectBase(w: seq<byte>, n: nat, ghost seeds: nat, ghost log: seq<Answer>)
      requires Valid() && |w| == 4 * n && n > 0 && AllKnown(seeds, entries, bases, offsets, log)
      requires exists i :: 0 <= i < |log| && log[i].bytes == w
      modifies this`bases, this`truncated
      ensures Valid() && AllKnown(seeds, entries, bases, offsets, log)
      ensures old(truncated) ==> truncated
      ensures forall x :: NamesBase(w, x) ==> x in bases || truncated
    {
      var h := Word(w, 0);
      ghost var i :| 0 <= i < |log| && log[i].bytes == w;
      if h / 0x1_0000 == 0x6101 && n >= 16 && Word(w, 10) % 2 == 1 {
        assert NamesBase(log[i].bytes, Address(Word(w, 11), Word(w, 10), PAGE));
        UniqueBase(Address(Word(w, 11), Word(w, 10), PAGE));
      }
    }

    /** The vertex shader's offset, or the pixel shader's three. */
    method CollectOffsets(w: seq<byte>, n: nat, ghost seeds: nat, ghost log: seq<Answer>)
      requires Valid() && |w| == 4 * n && n > 0 && AllKnown(seeds, entries, bases, offsets, log)
      requires exists i :: 0 <= i < |log| && log[i].bytes == w
      modifies this`offsets, this`truncated
      ensures Valid() && AllKnown(seeds, entries, bases, offsets, log)
      ensures old(truncated) ==> truncated
      ensures forall x :: NamesOffset(w, x) ==> x in offsets || truncated
    {
      var h := Word(w, 0);
      if h / 0x1_0000 == 0x7810 && n == 9 {
        CollectOffset(w, Address(Word(w, 2), Word(w, 1), 64), seeds, log);
      }
      if h / 0x1_0000 == 0x7820 && n == 12 {
        CollectOffset(w, Address(Word(w, 2), Word(w, 1), 64), seeds, log);
        CollectOffset(w, Address(Word(w, 9), Word(w, 8), 64), seeds, log);
        CollectOffset(w, Address(Word(w, 11), Word(w, 10), 64), seeds, log);
      }
    }

    method CollectOffset(w: seq<byte>, x: nat, ghost seeds: nat, ghost log: seq<Answer>)
      requires Valid() && NamesOffset(w, x) && AllKnown(seeds, entries, bases, offsets, log)
      requires exists i :: 0 <= i < |log| && log[i].bytes == w
      modifies this`offsets, this`truncated
      ensures Valid() && AllKnown(seeds, entries, bases, offsets, log)
      ensures old(offsets) <= offsets && (old(truncated) ==> truncated) && (x in offsets || truncated)
    {
      ghost var i :| 0 <= i < |log| && log[i].bytes == w;
      assert NamesOffset(log[i].bytes, x);
      UniqueOffset(x);
    }

    /** Bind the vertex buffers a packet names, group by group. The walk notes whether all of them are
        slots there are. */
    method BindVertices(vb: array<Vertices>, w: seq<byte>, n: nat)
      requires vb.Length == SLOTS && |w| == 4 * n && n > 0
      modifies vb, this`inside
      ensures vb[..] == Rebound(old(vb[..]), w, 1) && inside == (old(inside) && GroupsInside(w, 1))
    {
      ghost var goal, all := Rebound(vb[..], w, 1), inside && GroupsInside(w, 1);
      var k := 1;
      while k + 3 < n
        invariant 1 <= k && Rebound(vb[..], w, k) == goal && (inside && GroupsInside(w, k)) == all
      {
        var slot := Word(w, k) / 0x400_0000;
        if slot < SLOTS { vb[slot] := Binding(w, k); }
        inside := inside && slot < SLOTS;
        k := k + 4;
      }
    }

    /** Read the vertices one index names, in every bound buffer. */
    method ReadVertices(index: nat, x: Indices, vb: array<Vertices>, r: WalkReader, ghost from: nat,
                        ghost named: seq<nat>, ghost at: nat)
      requires Valid() && r.Valid() && vb.Length == SLOTS && AllInBuffers(r.log, from, x, vb[..])
      requires AllFetched(r.log, from + 1, vb[..], named) && at < |named| && named[at] == index
      modifies this`vertices, this`refused, r
      ensures Valid() && r.Valid() && old(r.cache) <= r.cache && old(r.log) <= r.log &&
              AllInBuffers(r.log, from, x, vb[..])
      ensures vertices - old(vertices) == |r.log| - |old(r.log)| && AllFetched(r.log, from + 1, vb[..], named)
    {
      var slot := 0;
      while slot < SLOTS
        invariant 0 <= slot <= SLOTS && Valid() && r.Valid() && old(r.cache) <= r.cache && old(r.log) <= r.log
        invariant AllInBuffers(r.log, from, x, vb[..]) && vertices - old(vertices) == |r.log| - |old(r.log)|
        invariant AllFetched(r.log, from + 1, vb[..], named)
      {
        var v := vb[slot];
        if v.valid {
          var offset := index * v.pitch;
          if v.pitch == 0 || v.pitch > 256 || offset > v.size || v.pitch > v.size - offset ||
              !Range(v.base, offset + v.pitch) {
            refused := refused + 1;
          } else {
            ghost var before := r.log;
            var vertex := r.Read(v.base + offset, v.pitch, false);
            if vertex.Some? {
              vertices := vertices + 1;
              ghost var a := Answer(v.base + offset, v.pitch, false, vertex.value);
              VertexIn(before, from, a, index, x, vb[..], slot);
              FetchedMore(before, from + 1, a, vb[..], named, at, slot);
            } else {
              refused := refused + 1;
            }
          }
        }
        slot := slot + 1;
      }
    }

    /** A draw: its indices, and for each index its vertices. Only bound buffers are read, and only
        inside their sizes. */
    method Draw(w: seq<byte>, x: Indices, vb: array<Vertices>, r: WalkReader)
      requires Valid() && r.Valid() && |w| >= 28 && vb.Length == SLOTS && draws < packets
      modifies this`draws, this`indices, this`vertices, this`refused, r
      ensures Valid() && r.Valid() && old(r.cache) <= r.cache && old(r.log) <= r.log
      ensures AllInBuffers(r.log, |old(r.log)|, x, vb[..]) && draws == old(draws) + 1
      ensures !Drawable(w, x) ==> r.log == old(r.log) && refused == old(refused) + 1
      ensures r.log != old(r.log) ==>
                var (width, first) := (if x.format == 2 then 4 else x.format + 1, r.log[|old(r.log)|]);
                first.va == x.base + Word(w, 3) * width && |first.bytes| == first.n == Word(w, 2) * width &&
                AllFetched(r.log, |old(r.log)| + 1, vb[..], Numbers(first.bytes, Word(w, 2), width))
    {
      draws := draws + 1;
      if !Drawable(w, x) {
        refused := refused + 1;
        return;
      }
      DrawIndexed(Word(w, 3), Word(w, 2), Width(x.format), x, vb, r);
    }

    /** The indices from `first` on, of `width` bytes each, and their vertices. */
    method DrawIndexed(first: nat, n: nat, width: nat, x: Indices, vb: array<Vertices>, r: WalkReader)
      requires Valid() && r.Valid() && vb.Length == SLOTS
      modifies this`indices, this`vertices, this`refused, r
      ensures Valid() && r.Valid() && old(r.cache) <= r.cache && old(r.log) <= r.log
      ensures AllInBuffers(r.log, |old(r.log)|, x, vb[..])
      ensures r.log != old(r.log) ==>
                var a := r.log[|old(r.log)|];
                a.va == x.base + first * width && |a.bytes| == a.n == n * width &&
                AllFetched(r.log, |old(r.log)| + 1, vb[..], Numbers(a.bytes, n, width))
    {
      var values := ReadIndices(first * width, n * width, x, r);
      if values.None? {
        refused := refused + 1;
        return;
      }
      indices := indices + n;
      ghost var from, log, cache := |old(r.log)|, r.log, r.cache;
      DrawVertices(values.value, n, width, x, vb, r, from, Numbers(values.value, n, width));
      Longer(old(r.log), log, r.log);
      assert r.log[from] == log[from];
      Longer(old(r.cache), cache, r.cache);
    }

    /** The bytes of a draw's indices, if they are inside the index buffer. */
    method ReadIndices(start: nat, bytes: nat, x: Indices, r: WalkReader) returns (values: Option<seq<byte>>)
      requires r.Valid()
      modifies r
      ensures r.Valid() && old(r.cache) <= r.cache && old(r.log) <= r.log
      ensures values.None? ==> r.log == old(r.log)
      ensures values.Some? ==>
                |values.value| == bytes && |r.log| == |old(r.log)| + 1 && InIndices(r.log[|r.log| - 1], x) &&
                r.log[|r.log| - 1] == Answer(x.base + start, bytes, false, values.value)
    {
      if start > x.size || bytes > x.size - start || !Range(x.base, start + bytes) { return None; }
      values := r.Read(x.base + start, bytes, false);
    }

    /** The i-th of n indices. */
    method IndexAt(values: seq<byte>, n: nat, width: nat, i: nat, ghost named: seq<nat>) returns (index: nat)
      requires |values| == n * width && i < n && named == Numbers(values, n, width)
      ensures |named| == n && index == named[i]
    {
      NumberIs(values, n, width, i);
      index := Little(values[i * width..(i + 1) * width]);
    }

    /** The vertices of each of n indices. */
    method DrawVertices(values: seq<byte>, n: nat, width: nat, x: Indices, vb: array<Vertices>, r: WalkReader,
                        ghost from: nat, ghost named: seq<nat>)
      requires Valid() && r.Valid() && vb.Length == SLOTS && AllInBuffers(r.log, from, x, vb[..])
      requires |values| == n * width && named == Numbers(values, n, width) && |r.log| == from + 1
      modifies this`vertices, this`refused, r
      ensures Valid() && r.Valid() && old(r.cache) <= r.cache && old(r.log) <= r.log &&
              AllInBuffers(r.log, from, x, vb[..])
      ensures AllFetched(r.log, from + 1, vb[..], named)
    {
      var i := 0;
      while i < n
        invariant 0 <= i <= n && Valid() && r.Valid() && old(r.cache) <= r.cache && old(r.log) <= r.log
        invariant AllInBuffers(r.log, from, x, vb[..]) && AllFetched(r.log, from + 1, vb[..], named)
      {
        var index := IndexAt(values, n, width, i, named);
        ReadVertices(index, x, vb, r, from, named, i);
        i := i + 1;
      }
    }

    /** Follow one entry's packets: to a batch end, to where the reader is stuck, or to a cap. Every
        batch they chain to is queued, or the walk is marked truncated. */
    method Follow(e: Entry, r: WalkReader, ghost seeds: nat) returns (ghost path: seq<Answer>)
      requires Valid() && r.Valid() && AllKnown(seeds, entries, bases, offsets, r.log)
      modifies this`entries, this`bases, this`offsets, this`refused, this`truncated, this`packets,
               this`draws, this`indices, this`vertices, this`inside, r
      ensures Valid() && r.Valid() && old(entries) <= entries && old(r.cache) <= r.cache && old(r.log) <= r.log
      ensures AllKnown(seeds, entries, bases, offsets, r.log) && (old(truncated) ==> truncated)
      ensures Chased(e, path, r.log, entries, truncated) && packets == old(packets) + |path|
      ensures truncated || (path != [] && IsEnd(path[|path| - 1].bytes)) || Stuck(r, PathEnd(e, path), e.global)
      ensures inside <==> old(inside) && PathInside(path)
    {
      ghost var start, packets0 := Start(entries, r.cache, r.log, truncated, inside), packets;
      var vb := new Vertices[SLOTS](_ => NO_VERTICES);
      var x := Indices(0, 0, 3, false, false);
      var pc: nat, step: nat, more := e.va, 0, true;
      path := [];
      while step < STEPS
        invariant 0 <= step <= STEPS && Walking(e, r, seeds, path) && Since(start, r) && (step == STEPS ==> truncated)
        invariant pc == PathEnd(e, path) && (path != [] ==> !IsEnd(path[|path| - 1].bytes))
        invariant packets == packets0 + |path|
        invariant inside <==> start.inside && PathInside(path)
      {
        x, pc, more, path := Turn(e, pc, step, x, vb, r, seeds, path, start);
        if !more { return; }
        step := step + 1;
      }
    }

    /** Midway along a path. */
    ghost predicate Walking(e: Entry, r: WalkReader, seeds: nat, path: seq<Answer>)
      reads this, r
    {
      Valid() && r.Valid() && AllKnown(seeds, entries, bases, offsets, r.log) &&
          Chased(e, path, r.log, entries, truncated)
    }

    /** Nothing found, read or noted since then was taken back. */
    ghost predicate Since(start: Start, r: WalkReader)
      reads this, r
    {
      start.entries <= entries && start.cache <= r.cache && start.log <= r.log && (start.truncated ==> truncated)
    }

    /** One round of the loop; the last one there may be marks the walk truncated. */
    method Turn(e: Entry, pc: nat, step: nat, x: Indices, vb: array<Vertices>, r: WalkReader, ghost seeds: nat,
                ghost path: seq<Answer>, ghost start: Start)
      returns (out: Indices, next: nat, more: bool, ghost longer: seq<Answer>)
      requires Walking(e, r, seeds, path) && Since(start, r) && vb.Length == SLOTS
      requires pc == PathEnd(e, path) && (path != [] ==> !IsEnd(path[|path| - 1].bytes))
      requires inside <==> start.inside && PathInside(path)
      modifies this`entries, this`bases, this`offsets, this`refused, this`truncated, this`packets,
               this`draws, this`indices, this`vertices, this`inside, r, vb
      ensures Walking(e, r, seeds, longer) && Since(start, r) && (more && step == STEPS - 1 ==> truncated)
      ensures packets == old(packets) + |longer| - |path| && next == PathEnd(e, longer)
      ensures inside <==> start.inside && PathInside(longer)
      ensures more ==> longer != [] && !IsEnd(longer[|longer| - 1].bytes)
      ensures !more ==>
                truncated || (longer != [] && IsEnd(longer[|longer| - 1].bytes)) ||
                    Stuck(r, PathEnd(e, longer), e.global)
    {
      out, next, more, longer := Advance(e, pc, x, vb, r, seeds, path, start);
      PathInsideStep(path, longer, start.inside, old(inside), inside);
      if more && step == STEPS - 1 {
        ChasedStays(e, longer, r.log, r.log, entries, entries, truncated, true);
        truncated := true;
      }
    }

    /** One packet of a path; `more` says whether the path goes on. */
    method Advance(e: Entry, pc: nat, x: Indices, vb: array<Vertices>, r: WalkReader, ghost seeds: nat,
                   ghost path: seq<Answer>, ghost start: Start)
      returns (out: Indices, next: nat, more: bool, ghost longer: seq<Answer>)
      requires Walking(e, r, seeds, path) && Since(start, r) && vb.Length == SLOTS
      requires pc == PathEnd(e, path) && (path != [] ==> !IsEnd(path[|path| - 1].bytes))
      modifies this`entries, this`bases, this`offsets, this`refused, this`truncated, this`packets,
               this`draws, this`indices, this`vertices, this`inside, r, vb
      ensures Walking(e, r, seeds, longer) && Since(start, r)
      ensures packets == old(packets) + |longer| - |path| && next == PathEnd(e, longer)
      ensures Grown(path, longer, old(inside), inside)
      ensures more ==> longer != [] && !IsEnd(longer[|longer| - 1].bytes)
      ensures !more ==>
                truncated || (longer != [] && IsEnd(longer[|longer| - 1].bytes)) ||
                    Stuck(r, PathEnd(e, longer), e.global)
    {
      out, next, more := x, pc, false;
      ghost var entries0, cache0, log0 := entries, r.cache, r.log;
      var w;
      w, longer := Packet(e, pc, r, seeds, path);
      Longer(start.entries, entries0, entries);
      Longer(start.cache, cache0, r.cache);
      Longer(start.log, log0, r.log);
      if w.None? { return; }
      next := pc + |w.value|;
      assert longer[|path|].bytes == w.value;
      if IsEnd(w.value) { EndInside(w.value); }
      if IsEnd(w.value) { return; }
      more := true;
      out := UseOn(e, w.value, x, vb, r, seeds, longer, start);
    }

    /** Read the packet at pc: its header first, then all of it. */
    method Fetch(pc: nat, global: bool, r: WalkReader) returns (w: Option<seq<byte>>)
      requires r.Valid()
      modifies this`refused, r
      ensures r.Valid() && old(r.cache) <= r.cache && old(r.log) <= r.log
      ensures w.None? ==> Stuck(r, pc, global)
      ensures w.Some? ==> 4 <= |w.value| == 4 * PacketWords(Word(w.value, 0)) && r.log != [] &&
                          r.log[|r.log| - 1] == Answer(pc, |w.value|, global, w.value)
    {
      ghost var log0, cache0 := r.log, r.cache;
      var head := r.Read(pc, 4, global);
      if head.None? { return None; }
      var n := PacketWords(Word(head.value, 0));
      if n == 0 || n > 256 || !Range(pc, n * 4) {
        refused := refused + 1;
        assert Unfit(r.cache, pc, global, n);
        return None;
      }
      ghost var log1, cache1 := r.log, r.cache;
      w := r.Read(pc, n * 4, global);
      Longer(log0, log1, r.log);
      Longer(cache0, cache1, r.cache);
      if w.None? {
        refused := refused + 1;
        ShowsStays(cache1, r.cache, pc, 4, global, head.value);
        assert r.calls > CALLS || r.late(r.calls) || Unfit(r.cache, pc, global, n);
      } else {
        SameHead(cache1, r.cache, pc, n * 4, global, head.value, w.value);
      }
    }

    /** Read, count and collect the packet at pc, at the end of `path`; None where the path ends. */
    method Packet(e: Entry, pc: nat, r: WalkReader, ghost seeds: nat, ghost path: seq<Answer>)
      returns (next: Option<seq<byte>>, ghost longer: seq<Answer>)
      requires Valid() && r.Valid() && AllKnown(seeds, entries, bases, offsets, r.log)
      requires Chased(e, path, r.log, entries, truncated) && pc == PathEnd(e, path)
      requires path != [] ==> !IsEnd(path[|path| - 1].bytes)
      modifies this`refused, this`truncated, this`packets, this`entries, this`bases, this`offsets, r
      ensures Valid() && r.Valid() && old(entries) <= entries && old(r.cache) <= r.cache && old(r.log) <= r.log
      ensures AllKnown(seeds, entries, bases, offsets, r.log) && (old(truncated) ==> truncated)
      ensures Chased(e, longer, r.log, entries, truncated)
      ensures next.None? ==> longer == path && packets == old(packets) && (truncated || Stuck(r, pc, e.global))
      ensures next.Some? ==> draws < packets == old(packets) + 1 && |next.value| >= 4 && |next.value| % 4 == 0 &&
                             longer == path + [Answer(pc, |next.value|, e.global, next.value)]
    {
      longer := path;
      if packets >= PACKETS {
        ChasedStays(e, path, r.log, r.log, entries, entries, truncated, true);
        truncated := true;
        return None, path;
      }
      next := FetchOn(e, pc, r, seeds, path);
      if next.Some? { longer := Found(e, pc, next.value, seeds, r.log, path); }
    }

    /** A packet read, with what is known so far. */
    method FetchOn(e: Entry, pc: nat, r: WalkReader, ghost seeds: nat, ghost path: seq<Answer>)
      returns (w: Option<seq<byte>>)
      requires Valid() && r.Valid() && AllKnown(seeds, entries, bases, offsets, r.log)
      requires Chased(e, path, r.log, entries, truncated)
      modifies this`refused, r
      ensures Valid() && r.Valid() && old(r.cache) <= r.cache && old(r.log) <= r.log
      ensures AllKnown(seeds, entries, bases, offsets, r.log) && Chased(e, path, r.log, entries, truncated)
      ensures w.None? ==> Stuck(r, pc, e.global)
      ensures w.Some? ==> 4 <= |w.value| == 4 * PacketWords(Word(w.value, 0)) && |w.value| % 4 == 0 && r.log != [] &&
                          r.log[|r.log| - 1] == Answer(pc, |w.value|, e.global, w.value)
    {
      ghost var log := r.log;
      w := Fetch(pc, e.global, r);
      if w.Some? { FourTimes(PacketWords(Word(w.value, 0))); }
      AllKnownStays(seeds, entries, bases, offsets, log, r.log);
      ChasedStays(e, path, log, r.log, entries, entries, truncated, truncated);
    }

    /** Count and collect a packet just read. */
    method Found(e: Entry, pc: nat, w: seq<byte>, ghost seeds: nat, ghost log: seq<Answer>, ghost path: seq<Answer>)
      returns (ghost longer: seq<Answer>)
      requires Valid() && AllKnown(seeds, entries, bases, offsets, log) && packets < PACKETS
      requires Chased(e, path, log, entries, truncated) && pc == PathEnd(e, path)
      requires path != [] ==> !IsEnd(path[|path| - 1].bytes)
      requires 4 <= |w| == 4 * PacketWords(Word(w, 0)) && log != [] && log[|log| - 1] == Answer(pc, |w|, e.global, w)
      modifies this`refused, this`truncated, this`packets, this`entries, this`bases, this`offsets
      ensures Valid() && old(entries) <= entries && AllKnown(seeds, entries, bases, offsets, log)
      ensures (old(truncated) ==> truncated) && Chased(e, longer, log, entries, truncated)
      ensures draws < packets == old(packets) + 1 && longer == path + [Answer(pc, |w|, e.global, w)]
    {
      ghost var entries0, truncated0 := entries, truncated;
      packets := packets + 1;
      if !IsEnd(w) { Collect(w, |w| / 4, seeds, log); }
      ChasedStays(e, path, log, log, entries0, entries, truncated0, truncated);
      longer := path + [Answer(pc, |w|, e.global, w)];
      ChasedMore(e, path, Answer(pc, |w|, e.global, w), log, entries, truncated);
    }

    /** What a packet binds or draws. */
    method Use(w: seq<byte>, x: Indices, vb: array<Vertices>, r: WalkReader, ghost seeds: nat) returns (out: Indices)
      requires Valid() && r.Valid() && |w| >= 4 && |w| % 4 == 0 && vb.Length == SLOTS && draws < packets
      requires AllKnown(seeds, entries, bases, offsets, r.log)
      modifies this`draws, this`indices, this`vertices, this`refused, this`inside, r, vb
      ensures Valid() && r.Valid() && old(r.cache) <= r.cache && old(r.log) <= r.log
      ensures AllKnown(seeds, entries, bases, offsets, r.log) && inside == (old(inside) && SlotsInside(w))
      ensures vb[..] == if BindsVertices(w) then Rebound(old(vb[..]), w, 1) else old(vb[..])
      ensures AllInBuffers(r.log, |old(r.log)|, out, vb[..])
    {
      var h, n := Word(w, 0), |w| / 4;
      out := x;
      if h / 0x1_0000 == 0x7808 && (n - 1) % 4 == 0 { BindVertices(vb, w, n); }
      if h / 0x1_0000 == 0x780a && n == 5 {
        out := out.(base := Word(w, 3) * 0x1_0000_0000 + Word(w, 2), size := Word(w, 4),
            format := Word(w, 1) / 256 % 4, have := true);
      }
      if h / 0x1_0000 == 0x7849 && n == 3 && Word(w, 1) / 256 % 2 == 1 { out := out.(instanced := true); }
      if h / 0x1_0000 == 0x7b00 && n >= 7 {
        ghost var log := r.log;
        Draw(w, out, vb, r);
        AllKnownStays(seeds, entries, bases, offsets, log, r.log);
      }
    }

    /** The same along a path. */
    method UseOn(e: Entry, w: seq<byte>, x: Indices, vb: array<Vertices>, r: WalkReader, ghost seeds: nat,
                 ghost path: seq<Answer>, ghost start: Start)
      returns (out: Indices)
      requires Walking(e, r, seeds, path) && Since(start, r) && vb.Length == SLOTS && draws < packets
      requires |w| >= 4 && |w| % 4 == 0
      modifies this`draws, this`indices, this`vertices, this`refused, this`inside, r, vb
      ensures Walking(e, r, seeds, path) && Since(start, r) && inside == (old(inside) && SlotsInside(w))
    {
      ghost var cache, log := r.cache, r.log;
      out := Use(w, x, vb, r, seeds);
      Longer(start.cache, cache, r.cache);
      Longer(start.log, log, r.log);
      ChasedStays(e, path, log, r.log, entries, entries, truncated, truncated);
    }

    /** The next entry of the list. */
    method FollowNext(q: nat, r: WalkReader, ghost seeds: nat, ghost paths: seq<seq<Answer>>)
      returns (ghost more: seq<seq<Answer>>)
      requires Valid() && r.Valid() && visited == q == |paths| < |entries|
      requires AllKnown(seeds, entries, bases, offsets, r.log) && AllChased(entries, paths, r.log, truncated)
      requires inside <==> PathsInside(paths)
      modifies this, r
      ensures Valid() && r.Valid() && visited == |more| == q + 1 <= |entries|
      ensures old(entries) <= entries && old(r.cache) <= r.cache && old(r.log) <= r.log
      ensures AllKnown(seeds, entries, bases, offsets, r.log) && AllChased(entries, more, r.log, truncated)
      ensures inside <==> PathsInside(more)
    {
      ghost var log, entries0, truncated0 := r.log, entries, truncated;
      visited := visited + 1;
      ghost var path := Follow(entries[q], r, seeds);
      AllChasedMore(entries0, entries, paths, path, log, r.log, truncated0, truncated);
      PathsInsideMore(paths, path);
      more := paths + [path];
    }

    /** Every entry, also those found on the way, exactly once. It ends, although the worklist grows
        while it is scanned. */
    method FollowAll(r: WalkReader) returns (ghost paths: seq<seq<Answer>>)
      requires Valid() && r.Valid() && visited == 0 && bases == [] && offsets == [] && inside
      modifies this, r
      ensures Valid() && r.Valid() && old(entries) <= entries && visited == |entries| == |paths|
      ensures old(r.cache) <= r.cache && old(r.log) <= r.log
      ensures AllKnown(old(|entries|), entries, bases, offsets, r.log)
      ensures AllChased(entries, paths, r.log, truncated)
      ensures inside <==> PathsInside(paths)
    {
      ghost var seeds := |entries|;
      var q := 0;
      paths := [];
      while q < |entries|
        invariant 0 <= q <= |entries| && visited == q == |paths| && Valid() && r.Valid()
        invariant old(entries) <= entries && old(r.cache) <= r.cache && old(r.log) <= r.log
        invariant AllKnown(seeds, entries, bases, offsets, r.log)
        invariant AllChased(entries, paths, r.log, truncated)
        invariant inside <==> PathsInside(paths)
        decreases ENTRIES - q
      {
        paths := FollowNext(q, r, seeds, paths);
        q := q + 1;
      }
    }

    /** The whole walk: every entry, then the code behind every base and offset. Each entry has its path;
        unless the walk is marked truncated, no batch a path chains to was left out. */
    method Run(r: WalkReader) returns (ghost paths: seq<seq<Answer>>)
      requires Valid() && r.Valid() && visited == 0 && bases == [] && offsets == [] && inside
      modifies this, r
      ensures Valid() && r.Valid() && old(entries) <= entries && visited == |entries| == |paths|
      ensures old(r.cache) <= r.cache && old(r.log) <= r.log
      ensures AllKnown(old(|entries|), entries, bases, offsets, r.log)
      ensures AllChased(entries, paths, r.log, truncated)
      ensures inside <==> PathsInside(paths)
    {
      ghost var log0, cache0, seeds := r.log, r.cache, |entries|;
      paths := FollowAll(r);
      ghost var log, cache := r.log, r.cache;
      ReadCode(r, seeds, paths);
      Longer(log0, log, r.log);
      Longer(cache0, cache, r.cache);
    }

    /** The code reads leave what the walk found as it is. */
    method ReadCode(r: WalkReader, ghost seeds: nat, ghost paths: seq<seq<Answer>>)
      requires Valid() && r.Valid() && AllKnown(seeds, entries, bases, offsets, r.log)
      requires AllChased(entries, paths, r.log, truncated)
      modifies this`shaders, this`refused, r
      ensures Valid() && r.Valid() && old(r.cache) <= r.cache && old(r.log) <= r.log
      ensures AllKnown(seeds, entries, bases, offsets, r.log) && AllChased(entries, paths, r.log, truncated)
    {
      ghost var log := r.log;
      ReadShaders(r);
      AllKnownStays(seeds, entries, bases, offsets, log, r.log);
      AllChasedStays(entries, entries, paths, log, r.log, truncated, truncated);
    }

    method ReadShaders(r: WalkReader)
      requires Valid() && r.Valid()
      modifies this`shaders, this`refused, r
      ensures Valid() && r.Valid() && old(r.cache) <= r.cache && old(r.log) <= r.log
    {
      var b := 0;
      while b < |bases|
        invariant 0 <= b <= |bases| && r.Valid() && old(r.cache) <= r.cache && old(r.log) <= r.log
      {
        var o := 0;
        while o < |offsets|
          invariant 0 <= o <= |offsets| && r.Valid() && old(r.cache) <= r.cache && old(r.log) <= r.log
        {
          if offsets[o] >= SPACE - 64 || !Range(bases[b], offsets[o] + 64) {
            refused := refused + 1;
          } else {
            var code := r.Read(bases[b] + offsets[o], 64, false);
            if code.Some? { shaders := shaders + 1; } else { refused := refused + 1; }
          }
          o := o + 1;
        }
        b := b + 1;
      }
    }
  }
}
