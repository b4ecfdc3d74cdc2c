/** The page check of native_mapping.hpp and physical_alias.hpp: does the graphics page table map the
    surface's own pages? And the proof that lets a later flip skip it. */
module Mapping {
  import opened Words

  const PAGE := 4096
  const MASK := 0x1_0000_0000_0000 // physical addresses have 48 bits
  const PTES := 0x80_0000          // where the page table starts in BAR0
  const MAX_PAGES := 4096
  const TOP := 0x1_0000_0000_0000_0000

  datatype Segment = Segment(address: nat, length: nat)

  /** Whole or partial pages of a range. */
  function Pages(size: nat): nat { (size + PAGE - 1) / PAGE }

  /** How much of a page the range needs. */
  function Need(size: nat, page: nat): nat
    requires page * PAGE <= size
  {
    if size - page * PAGE < PAGE then size - page * PAGE else PAGE
  }

  lemma PageInside(size: nat, page: nat)
    requires page < Pages(size)
    ensures page * PAGE < size
  {
  }

  // ---- comparing two descriptors ----

  datatype Status = Equal | InvalidRange | MissingSegment | DifferentPages

  datatype Alias = Alias(status: Status, pages: nat)

  predicate Backed(s: Segment, need: nat) {
    s.address != 0 && s.address % PAGE == 0 && s.length >= need
  }

  /** Both descriptors have this page. */
  predicate Present(size: nat, a: nat -> Segment, b: nat -> Segment, page: nat)
    requires page < Pages(size)
  {
    PageInside(size, page);
    Backed(a(page * PAGE), Need(size, page)) && Backed(b(page * PAGE), Need(size, page))
  }

  predicate SamePage(size: nat, a: nat -> Segment, b: nat -> Segment, page: nat)
    requires page < Pages(size)
  {
    Present(size, a, b, page) && a(page * PAGE).address == b(page * PAGE).address
  }

  /** Walk both descriptors page by page; stop at the first page that is missing or differs. */
  method Compare(size: nat, a: nat -> Segment, b: nat -> Segment) returns (p: Alias)
    ensures p.status == InvalidRange <==> size == 0 || size + PAGE - 1 >= TOP
    ensures p.pages <= Pages(size) && forall k :: 0 <= k < p.pages ==> SamePage(size, a, b, k)
    ensures p.status == Equal ==> p.pages == Pages(size)
    ensures p.status == MissingSegment ==> p.pages < Pages(size) && !Present(size, a, b, p.pages)
    ensures p.status == DifferentPages ==>
              p.pages < Pages(size) && Present(size, a, b, p.pages) && !SamePage(size, a, b, p.pages)
  {
    if size == 0 || size > TOP - 1 - 4095 { return Alias(InvalidRange, 0); }
    var page := 0;
    while page < Pages(size)
      invariant 0 <= page <= Pages(size)
      invariant forall k :: 0 <= k < page ==> SamePage(size, a, b, k)
    {
      PageInside(size, page);
      var need := if size - page * PAGE < PAGE then size - page * PAGE else PAGE;
      var x, y := a(page * PAGE), b(page * PAGE);
      if x.address == 0 || y.address == 0 || x.address % PAGE != 0 || y.address % PAGE != 0 || x.length < need ||
          y.length < need {
        return Alias(MissingSegment, page);
      }
      if x.address != y.address { return Alias(DifferentPages, page); }
      page := page + 1;
    }
    p := Alias(Equal, page);
  }

  // ---- the whole check ----

  datatype Code =
    | Success | BadArgument | Structure(which: nat) | NativeRangeMismatch | DescriptorTooShort | TooManyPages
    | NativeMemoryNotWired | DescriptorPrepareFailed | DescriptorHasNoPhysicalSegment | DescriptorPhysicalMismatch
    | BAR0RangeMismatch | PhysicalAddressOutOfRange | GGTTEntryUnstable | GGTTEntryNotPresent | GGTTPhysicalMismatch
    | MappingChanged

  /** Everything the check reads of one resource and its surface. `structure` and `late` are the first
      object or class check that fails before and after the range check, if any; page table entries
      are read twice; `steady` is the final re-read of every field. */
  datatype Facts = Facts(
    structure: Option<nat>, nativeVA: nat, nativeLength: nat, late: Option<nat>,
    surfaceLength: nat, descriptorLength: nat, wired: bool, identity: seq<nat>,
    preparable: bool, native: nat -> Segment, surface: nat -> Segment, resident: bool,
    barLength: nat, mmio: bool, before: nat -> nat, after: nat -> nat, steady: bool)

  /** The identity a proof is kept under. */
  datatype Identity = Identity(va: nat, bytes: nat, rest: seq<nat>)

  function IdentityOf(m: Facts, va: nat, bytes: nat): Identity { Identity(va, bytes, m.identity) }

  /** The checks before the identity is formed. */
  function Early(m: Facts, va: nat, bytes: nat): Code {
    if bytes == 0 || va % PAGE != 0 then BadArgument
    else if m.structure.Some? then Structure(m.structure.value)
    else if va != m.nativeVA || bytes > m.nativeLength then NativeRangeMismatch
    else if m.late.Some? then Structure(m.late.value)
    else if bytes > m.surfaceLength || bytes > m.descriptorLength then DescriptorTooShort
    else if bytes > MAX_PAGES * PAGE then TooManyPages
    else if !m.wired then NativeMemoryNotWired
    else Success
  }

  /** The address part of a page table entry. */
  function PteAddress(pte: nat): nat { pte % MASK / PAGE * PAGE }

  /** This page's entry is stable, present, and points at the native descriptor's page. */
  predicate Maps(m: Facts, bytes: nat, page: nat)
    requires page < Pages(bytes)
  {
    PageInside(bytes, page);
    var s := m.native(page * PAGE);
    Backed(s, Need(bytes, page)) && s.address < MASK &&
    m.before(page) == m.after(page) && m.before(page) % 2 == 1 && PteAddress(m.before(page)) == s.address
  }

  predicate TableFits(m: Facts, va: nat, bytes: nat) {
    va / PAGE <= (TOP - 1 - PTES) / 8 && PTES + va / PAGE * 8 + Pages(bytes) * 8 <= m.barLength
  }

  /** Every page is the surface's own; or, with a resident copy, the first that is not the surface's is
      at least there on both sides. */
  predicate Related(m: Facts, bytes: nat) {
    (forall k :: 0 <= k < Pages(bytes) ==> SamePage(bytes, m.native, m.surface, k)) ||
    (m.resident && exists k :: 0 <= k < Pages(bytes) && Diverges(m, bytes, k))
  }

  predicate Diverges(m: Facts, bytes: nat, k: nat)
    requires k < Pages(bytes)
  {
    Present(bytes, m.native, m.surface, k) && !SamePage(bytes, m.native, m.surface, k) &&
    forall j :: 0 <= j < k ==> SamePage(bytes, m.native, m.surface, j)
  }

  /** What full Success means: every visible or padded page of the surface is mapped, by a stable,
      present entry, at the physical page the native descriptor gives for it. */
  predicate Proven(m: Facts, va: nat, bytes: nat) {
    Early(m, va, bytes) == Success && m.preparable && Related(m, bytes) && TableFits(m, va, bytes) && m.mmio &&
    (forall k :: 0 <= k < Pages(bytes) ==> Maps(m, bytes, k)) && m.steady
  }

  /** A proof kept for later: the identity it holds for. Only successes are kept. */
  datatype Proof = Proof(valid: bool, identity: Identity)

  /** The check with a kept proof: does it succeed, and what proof remains. */
  function Inspected(m: Facts, va: nat, bytes: nat, p: Proof): (bool, Proof) {
    if Early(m, va, bytes) == Success && p.valid && p.identity == IdentityOf(m, va, bytes) then (true, p)
    else if Proven(m, va, bytes) then (true, Proof(true, IdentityOf(m, va, bytes)))
    else (false, p.(valid := false))
  }

  /** A valid proof was obtained for this very mapping. */
  ghost predicate Sound(m: Facts, p: Proof) {
    p.valid ==> exists va, bytes :: p.identity == IdentityOf(m, va, bytes) && Proven(m, va, bytes)
  }

  /** While the mapping stays as it was, a kept proof changes nothing: the check succeeds exactly when
      the full page walk would, and leaves a sound proof. */
  lemma CacheAgrees(m: Facts, va: nat, bytes: nat, p: Proof)
    requires Sound(m, p)
    ensures Inspected(m, va, bytes, p).0 <==> Proven(m, va, bytes)
    ensures Sound(m, Inspected(m, va, bytes, p).1)
  {
    if p.valid && p.identity == IdentityOf(m, va, bytes) {
      var v, b :| p.identity == IdentityOf(m, v, b) && Proven(m, v, b);
    }
    if Proven(m, va, bytes) { assert IdentityOf(m, va, bytes) == IdentityOf(m, va, bytes) && Proven(m, va, bytes); }
  }

  /** The relation comparison decides. */
  lemma AliasDecides(m: Facts, bytes: nat, p: Alias)
    requires 0 < bytes && bytes + PAGE - 1 < TOP
    requires p.pages <= Pages(bytes) && forall k :: 0 <= k < p.pages ==> SamePage(bytes, m.native, m.surface, k)
    requires p.status == Equal ==> p.pages == Pages(bytes)
    requires p.status == MissingSegment ==> p.pages < Pages(bytes) && !Present(bytes, m.native, m.surface, p.pages)
    requires p.status == DifferentPages ==>
               p.pages < Pages(bytes) && Present(bytes, m.native, m.surface, p.pages) &&
                   !SamePage(bytes, m.native, m.surface, p.pages)
    requires p.status != InvalidRange
    ensures Related(m, bytes) <==> p.status == Equal || (p.status == DifferentPages && m.resident)
  {
    if p.status == DifferentPages { assert Diverges(m, bytes, p.pages) &&
        !SamePage(bytes, m.native, m.surface, p.pages); }
    if p.status == MissingSegment {
      var same := SamePage(bytes, m.native, m.surface, p.pages);
      assert !same;
      forall k | 0 <= k < Pages(bytes) ensures !Diverges(m, bytes, k) {
        assert k < p.pages ==> SamePage(bytes, m.native, m.surface, k);
        assert p.pages < k && Diverges(m, bytes, k) ==> same;
      }
    }
  }

  lemma PagesOf(bytes: nat, off: nat)
    requires off % 4096 == 0
    ensures off < bytes <==> off / 4096 < Pages(bytes)
    ensures off / 4096 * PAGE == off
  {
  }

  /** The native side and its page table entry at one page, on the words. */
  lemma MapsOnWords(m: Facts, bytes: nat, off: nat)
    requires off < bytes && off % 4096 == 0 && off / 4096 < Pages(bytes)
    ensures Maps(m, bytes, off / 4096) <==>
            var (s, pte) := (m.native(off), m.before(off / 4096));
            s.address != 0 && s.address % 4096 == 0 && s.address < 0x1_0000_0000_0000 &&
            (s.length >= 4096 || s.length >= bytes - off) &&
            pte == m.after(off / 4096) && pte % 2 == 1 && pte % 0x1_0000_0000_0000 / 4096 == s.address / 4096
  {
    PagesOf(bytes, off);
  }

  lemma PresentOnWords(m: Facts, bytes: nat, off: nat)
    requires off < bytes && off % 4096 == 0 && off / 4096 < Pages(bytes)
    ensures Present(bytes, m.native, m.surface, off / 4096) <==>
            var (x, y) := (m.native(off), m.surface(off));
            x.address != 0 && x.address % 4096 == 0 && (x.length >= 4096 || x.length >= bytes - off) &&
            y.address != 0 && y.address % 4096 == 0 && (y.length >= 4096 || y.length >= bytes - off)
    ensures SamePage(bytes, m.native, m.surface, off / 4096) <==>
            Present(bytes, m.native, m.surface, off / 4096) && m.native(off).address == m.surface(off).address
  {
    PagesOf(bytes, off);
  }

  /** Where the first n pages are the same and page n, if there is one, is not, the sides are related
      exactly if that is all, or page n is there on both sides and there is a resident copy. */
  lemma RelatedExactly(m: Facts, bytes: nat, n: nat)
    requires n <= Pages(bytes) && forall k :: 0 <= k < n ==> SamePage(bytes, m.native, m.surface, k)
    requires n < Pages(bytes) ==> !SamePage(bytes, m.native, m.surface, n)
    ensures Related(m, bytes) <==>
            n == Pages(bytes) || (m.resident && Present(bytes, m.native, m.surface, n))
  {
    if n < Pages(bytes) {
      forall k | 0 <= k < Pages(bytes) && Diverges(m, bytes, k) ensures k == n {
        var same := SamePage(bytes, m.native, m.surface, n);
      }
      if m.resident && Present(bytes, m.native, m.surface, n) { assert Diverges(m, bytes, n); }
    }
  }

  /** The same, with the pages' words: `end` is how far the surface's pages are the native ones. */
  lemma RelatedOnWords(m: Facts, bytes: nat, end: nat)
    requires end == bytes || (end < bytes && end % 4096 == 0)
    requires forall off :: 0 <= off < end && off % 4096 == 0 ==>
               m.native(off).address == m.surface(off).address != 0 && m.native(off).address % 4096 == 0 &&
               (m.native(off).length >= 4096 || m.native(off).length >= bytes - off) &&
               (m.surface(off).length >= 4096 || m.surface(off).length >= bytes - off)
    requires end < bytes ==>
               m.native(end).address != m.surface(end).address || m.native(end).address == 0 ||
               m.native(end).address % 4096 != 0 ||
               (m.native(end).length < 4096 && m.native(end).length < bytes - end) ||
               (m.surface(end).length < 4096 && m.surface(end).length < bytes - end)
    ensures Related(m, bytes) <==>
            (end == bytes ||
             (m.resident && m.native(end).address != 0 && m.native(end).address % 4096 == 0 &&
              (m.native(end).length >= 4096 || m.native(end).length >= bytes - end) &&
              m.surface(end).address != 0 && m.surface(end).address % 4096 == 0 &&
              (m.surface(end).length >= 4096 || m.surface(end).length >= bytes - end)))
  {
    var n := if end == bytes then Pages(bytes) else end / 4096;
    forall k | 0 <= k < n ensures k < Pages(bytes) && SamePage(bytes, m.native, m.surface, k) {
      SameBelow(m, bytes, end, n, k);
    }
    if end < bytes {
      PagesOf(bytes, end);
      PresentOnWords(m, bytes, end);
    }
    RelatedExactly(m, bytes, n);
  }

  lemma SameBelow(m: Facts, bytes: nat, end: nat, n: nat, k: nat)
    requires end == bytes || (end < bytes && end % 4096 == 0)
    requires k < n == if end == bytes then Pages(bytes) else end / 4096
    requires k * 4096 < end && k * 4096 % 4096 == 0 ==>
               m.native(k * 4096).address == m.surface(k * 4096).address != 0 &&
               m.native(k * 4096).address % 4096 == 0 &&
               (m.native(k * 4096).length >= 4096 || m.native(k * 4096).length >= bytes - k * 4096) &&
               (m.surface(k * 4096).length >= 4096 || m.surface(k * 4096).length >= bytes - k * 4096)
    ensures k < Pages(bytes) && SamePage(bytes, m.native, m.surface, k)
  {
    PageInside(bytes, k);
    PagesOf(bytes, k * 4096);
    PresentOnWords(m, bytes, k * 4096);
  }

  /** Success means that each page of the native side is there, below 48 bits, and behind a stable,
      present entry with its page number; on the fields, and the other way round. */
  lemma TableOnWords(m: Facts, bytes: nat)
    ensures (forall k :: 0 <= k < Pages(bytes) ==> Maps(m, bytes, k)) <==>
            forall off :: 0 <= off < bytes && off % 4096 == 0 ==>
              var (s, pte) := (m.native(off), m.before(off / 4096));
              s.address != 0 && s.address % 4096 == 0 && s.address < 0x1_0000_0000_0000 &&
              (s.length >= 4096 || s.length >= bytes - off) &&
              pte == m.after(off / 4096) && pte % 2 == 1 && pte % 0x1_0000_0000_0000 / 4096 == s.address / 4096
  {
    forall off | 0 <= off < bytes && off % 4096 == 0
      ensures off / 4096 < Pages(bytes) && (Maps(m, bytes, off / 4096) <==>
              var (s, pte) := (m.native(off), m.before(off / 4096));
              s.address != 0 && s.address % 4096 == 0 && s.address < 0x1_0000_0000_0000 &&
              (s.length >= 4096 || s.length >= bytes - off) &&
              pte == m.after(off / 4096) && pte % 2 == 1 && pte % 0x1_0000_0000_0000 / 4096 == s.address / 4096)
    {
      PagesOf(bytes, off);
      MapsOnWords(m, bytes, off);
    }
    forall k | 0 <= k < Pages(bytes) ensures 0 <= k * 4096 < bytes && k * 4096 % 4096 == 0 && k * 4096 / 4096 == k {
      PageInside(bytes, k);
    }
  }

  /** The check without a kept proof, on the fields: it succeeds exactly if the surface's pages are the
      native ones (or, with a resident copy, differ first at a page both sides have, `end` being how far
      they agree), the table's entries lie inside the register window, and each native page is there,
      below 48 bits, and behind a stable, present entry with its page number. */
  lemma SucceedsExactly(m: Facts, va: nat, bytes: nat, p: Proof, end: nat)
    requires !p.valid && (end == bytes || (end < bytes && end % 4096 == 0))
    requires forall off :: 0 <= off < end && off % 4096 == 0 ==>
               m.native(off).address == m.surface(off).address != 0 && m.native(off).address % 4096 == 0 &&
               (m.native(off).length >= 4096 || m.native(off).length >= bytes - off) &&
               (m.surface(off).length >= 4096 || m.surface(off).length >= bytes - off)
    requires end < bytes ==>
               m.native(end).address != m.surface(end).address || m.native(end).address == 0 ||
               m.native(end).address % 4096 != 0 ||
               (m.native(end).length < 4096 && m.native(end).length < bytes - end) ||
               (m.surface(end).length < 4096 && m.surface(end).length < bytes - end)
    ensures Inspected(m, va, bytes, p).0 <==>
            (0 < bytes <= 0x100_0000 && va % 4096 == 0 && m.structure == m.late == None &&
             va == m.nativeVA && bytes <= m.nativeLength && bytes <= m.surfaceLength && bytes <= m.descriptorLength &&
             m.wired && m.preparable && m.mmio && m.steady &&
             va / 4096 <= 0x1FFF_FFFF_FFEF_FFFF && 0x80_0000 + (va / 4096 + (bytes + 4095) / 4096) * 8 <= m.barLength &&
             (end == bytes ||
              (m.resident && m.native(end).address != 0 && m.native(end).address % 4096 == 0 &&
               (m.native(end).length >= 4096 || m.native(end).length >= bytes - end) &&
               m.surface(end).address != 0 && m.surface(end).address % 4096 == 0 &&
               (m.surface(end).length >= 4096 || m.surface(end).length >= bytes - end))) &&
             (forall off :: 0 <= off < bytes && off % 4096 == 0 ==>
                var (s, pte) := (m.native(off), m.before(off / 4096));
                s.address != 0 && s.address % 4096 == 0 && s.address < 0x1_0000_0000_0000 &&
                (s.length >= 4096 || s.length >= bytes - off) &&
                pte == m.after(off / 4096) && pte % 2 == 1 && pte % 0x1_0000_0000_0000 / 4096 == s.address / 4096))
  {
    RelatedOnWords(m, bytes, end);
    TableOnWords(m, bytes);
  }

  /** The early refusals, first to last, on the fields. */
  lemma EarlyOnFields(m: Facts, va: nat, bytes: nat)
    ensures bytes == 0 || va % 4096 != 0 <==> Early(m, va, bytes) == BadArgument
    ensures bytes > 0 && va % 4096 == 0 ==>
              (m.structure.Some? ==> Early(m, va, bytes) == Structure(m.structure.value)) &&
              (m.structure.None? ==>
                 (va != m.nativeVA || bytes > m.nativeLength <==> Early(m, va, bytes) == NativeRangeMismatch))
    ensures bytes > 0 && va % 4096 == 0 && va == m.nativeVA && bytes <= m.nativeLength && m.structure.None? ==>
              (m.late.Some? ==> Early(m, va, bytes) == Structure(m.late.value)) &&
              (m.late.None? ==>
                 (bytes > m.surfaceLength || bytes > m.descriptorLength <==>
                  Early(m, va, bytes) == DescriptorTooShort))
    ensures bytes > 0 && va % 4096 == 0 && va == m.nativeVA && bytes <= m.nativeLength && m.structure.None? &&
            m.late.None? && bytes <= m.surfaceLength && bytes <= m.descriptorLength ==>
              (bytes > 0x100_0000 <==> Early(m, va, bytes) == TooManyPages) &&
              (bytes <= 0x100_0000 && !m.wired <==> Early(m, va, bytes) == NativeMemoryNotWired) &&
              (bytes <= 0x100_0000 && m.wired <==> Early(m, va, bytes) == Success)
  {
  }

  /** The page table walk: the code of the first page that fails, or Success. */
  method WalkTable(m: Facts, bytes: nat) returns (code: Code, checked: nat)
    ensures code == Success <==> forall k :: 0 <= k < Pages(bytes) ==> Maps(m, bytes, k)
    ensures checked <= Pages(bytes) && (forall k :: 0 <= k < checked ==> Maps(m, bytes, k)) &&
            (code == Success <==> checked == Pages(bytes))
    ensures code != Success ==>
              var (s, pte) := (m.native(checked * PAGE), m.before(checked));
              code == if s.address == 0 || s.address % 4096 != 0 ||
                  (s.length < 4096 && s.length < bytes - checked * PAGE) then DescriptorHasNoPhysicalSegment
              else if s.address >= 0x1_0000_0000_0000 then PhysicalAddressOutOfRange
              else if pte != m.after(checked) then GGTTEntryUnstable
              else if pte % 2 == 0 then GGTTEntryNotPresent
              else GGTTPhysicalMismatch
  {
    checked := 0;
    while checked < Pages(bytes)
      invariant 0 <= checked <= Pages(bytes)
      invariant forall k :: 0 <= k < checked ==> Maps(m, bytes, k)
    {
      PageInside(bytes, checked);
      var s, pte := m.native(checked * PAGE), m.before(checked);
      var remaining := bytes - checked * PAGE;
      if !(s.address != 0 && s.address % PAGE == 0 && s.length >= if remaining < PAGE then remaining else PAGE) {
        assert !Maps(m, bytes, checked);
        return DescriptorHasNoPhysicalSegment, checked;
      }
      if s.address >= MASK {
        assert !Maps(m, bytes, checked);
        return PhysicalAddressOutOfRange, checked;
      }
      if pte != m.after(checked) {
        assert !Maps(m, bytes, checked);
        return GGTTEntryUnstable, checked;
      }
      if pte % 2 != 1 {
        assert !Maps(m, bytes, checked);
        return GGTTEntryNotPresent, checked;
      }
      if PteAddress(pte) != s.address {
        assert !Maps(m, bytes, checked);
        return GGTTPhysicalMismatch, checked;
      }
      checked := checked + 1;
    }
    code := Success;
  }

  /** The full check, without a kept proof. */
  method InspectPages(m: Facts, va: nat, bytes: nat) returns (code: Code)
    requires Early(m, va, bytes) == Success
    ensures code == Success <==> Proven(m, va, bytes)
  {
    if !m.preparable { return DescriptorPrepareFailed; }
    var alias := Compare(bytes, m.native, m.surface);
    AliasDecides(m, bytes, alias);
    if alias.status == MissingSegment { return DescriptorHasNoPhysicalSegment; }
    if alias.status != Equal && !m.resident { return DescriptorPhysicalMismatch; }
    if va / PAGE > (TOP - 1 - PTES) / 8 { return BAR0RangeMismatch; }
    var offset, size := PTES + va / PAGE * 8, Pages(bytes) * 8;
    if !(offset <= m.barLength && size <= m.barLength - offset) || !m.mmio { return BAR0RangeMismatch; }
    var checked;
    code, checked := WalkTable(m, bytes);
    if code == Success && !m.steady { code := MappingChanged; }
  }

  /** The whole entry: a kept proof is dropped first, and comes back only with a success. */
  method Inspect(m: Facts, va: nat, bytes: nat, prepared: Proof) returns (code: Code, proof: Proof)
    ensures (code == Success, proof) == Inspected(m, va, bytes, prepared)
    ensures Early(m, va, bytes) != Success ==> code == Early(m, va, bytes)
  {
    proof := prepared.(valid := false);
    code := Early(m, va, bytes);
    if code != Success { return; }
    if prepared.valid && prepared.identity == IdentityOf(m, va, bytes) { return Success, prepared; }
    code := InspectPages(m, va, bytes);
    if code == Success { proof := Proof(true, IdentityOf(m, va, bytes)); }
  }
}
