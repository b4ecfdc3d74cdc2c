/** What `rewrite_video_batch` computes: a batch with some packets replaced, every copied word
    moved to its new position, and every relocation following its word.
    Positions are unbounded here; the source keeps them in 32 bits with 0xffffffff for "no
    position". An accepted batch names its own command size in one word, so on every accepted
    input all positions fit and the two agree. */
module Rewrite {
  import opened Words
  import opened Sideband

  datatype Replacement = Replacement(
    at: word, size: word, words: seq<word>, addresses: seq<(nat, nat)>, before: seq<word>)

  datatype Batch = Batch(commands: seq<word>, sideband: seq<word>, used: word)

  const BATCH_END: word := 0x0500_0000
  const INIT: seq<word> := [0x1d000000, 0x03000300, 0x708b0000, 1, 0x738a0001, 1, 0, 0x68000100]
  const IMPLICIT_FLUSH: seq<word> := [0x738a0001, 0, 4]
  const REFERENCE_SURFACE: seq<word> := [0x73810003, 0x50000000, 0x20000000, 0, 0]

  // ---- packets ----

  predicate IsWait(h: word) { h / 0x1_0000 == 0x6800 }

  /** `length` of prepare_gen12_probe.cpp: the size of a packet from its header. */
  function Length(h: word): (n: nat)
    ensures n > 0
  {
    if Type(h) == 0 then (if Opcode(h) == 0 || Opcode(h) == 10 then 1 else h % 64 + 2)
    else if IsWait(h) then 1
    else h % 4096 + 2
  }

  /** The rewriter's own decoder: the packet size, or 0 for a header it refuses. */
  function AuditedLength(h: word): nat {
    if Type(h) == 0 then
      if Opcode(h) == 0 || Opcode(h) == 10 then 1
      else if Opcode(h) in {32, 36, 38, 46} then h % 64 + 2
      else 0
    else if IsWait(h) then 1
    else if Type(h) == 3 then h % 4096 + 2
    else 0
  }

  /** The walk reaches the end of `s` exactly, over audited headers, with a batch end only as the
      last word. */
  predicate WalkOk(s: seq<word>) {
    s == [] ||
    (var n := AuditedLength(s[0]);
     0 < n <= |s| && (Type(s[0]) == 0 && Opcode(s[0]) == 10 ==> |s| == 1) && WalkOk(s[n..]))
  }

  /** The walk of `s` visits a header d words on. */
  predicate IsStart(s: seq<word>, d: int) {
    s != [] && (d == 0 || (var n := AuditedLength(s[0]); 0 < n <= |s| && n <= d && IsStart(s[n..], d - n)))
  }

  // ---- splicing ----

  predicate BeforeOk(header: word, before: seq<word>) {
    before == [] || before == INIT ||
    (header == 0x77800000 && before == IMPLICIT_FLUSH) ||
    (header == 0x73820077 && before == REFERENCE_SURFACE)
  }

  predicate AddressesOk(r: Replacement) {
    (forall p <- r.addresses :: 0 < p.0 < r.size && 0 < p.1 < |r.words|) &&
    (forall i, j :: 0 <= i < j < |r.addresses| ==> r.addresses[i].0 != r.addresses[j].0)
  }

  /** A replacement of one whole media packet by a packet of the same kind. */
  predicate ReplacementOk(c: seq<word>, r: Replacement) {
    r.at < |c| && IsStart(c, r.at) && r.words != [] &&
    Type(c[r.at]) == 3 && Type(r.words[0]) == 3 &&
    c[r.at] / 0x1_0000 == r.words[0] / 0x1_0000 &&
    c[r.at] % 4096 + 2 == r.size && r.words[0] % 4096 + 2 == |r.words| &&
    BeforeOk(c[r.at], r.before) && AddressesOk(r)
  }

  function End(r: Replacement): nat { r.at + r.size }

  /** Replacements of words pos..n in order, none empty or overlapping another. */
  predicate Ordered(n: nat, reps: seq<Replacement>, pos: nat) {
    pos <= n && (reps == [] || (pos <= reps[0].at < End(reps[0]) <= n && Ordered(n, reps[1..], End(reps[0]))))
  }

  predicate ReplacementsOk(c: seq<word>, reps: seq<Replacement>) {
    Ordered(|c|, reps, 0) && forall r <- reps :: ReplacementOk(c, r)
  }

  /** The rebuilt command words for `s`, the old words from position `pos` on. */
  function Body(s: seq<word>, reps: seq<Replacement>, pos: nat): seq<word>
    requires Ordered(pos + |s|, reps, pos)
  {
    if reps == [] then s
    else
      var r := reps[0];
      s[..r.at - pos] + (r.before + (r.words + Body(s[End(r) - pos..], reps[1..], End(r))))
  }

  function Lookup(pairs: seq<(nat, nat)>, x: int): Option<nat> {
    if pairs == [] then None
    else if pairs[0].0 == x then Some(pairs[0].1)
    else Lookup(pairs[1..], x)
  }

  /** Where old word q goes, if anywhere; `base` words precede the ones rebuilt from `pos` on. */
  function NewAt(reps: seq<Replacement>, pos: int, base: int, q: int): Option<int> {
    if reps == [] || q < reps[0].at then Some(base + q - pos)
    else
      var r := reps[0];
      var start := base + r.at - pos + |r.before|;
      if q >= End(r) then NewAt(reps[1..], End(r), start + |r.words|, q)
      else
        match Lookup(r.addresses, q - r.at)
        case None => None
        case Some(d) => Some(start + d)
  }

  /** Where the k-th replacement's new packet starts. */
  function PacketStart(reps: seq<Replacement>, pos: int, base: int, k: nat): int
    requires k < |reps|
  {
    var start := base + reps[0].at - pos + |reps[0].before|;
    if k == 0 then start else PacketStart(reps[1..], End(reps[0]), start + |reps[0].words|, k - 1)
  }

  predicate Replaced(r: Replacement, q: int) { r.at <= q < End(r) }

  predicate Copied(reps: seq<Replacement>, q: int) {
    forall r <- reps :: !Replaced(r, q)
  }

  /** Ordered replacements are sorted and disjoint. */
  lemma {:induction false} Sorted(n: nat, reps: seq<Replacement>, pos: nat)
    requires Ordered(n, reps, pos)
    ensures forall i :: 0 <= i < |reps| ==> pos <= reps[i].at < End(reps[i]) && End(reps[i]) <= n
    ensures forall i, j :: 0 <= i < j < |reps| ==> End(reps[i]) <= reps[j].at
  {
    if reps != [] {
      var rest := reps[1..];
      Sorted(n, rest, End(reps[0]));
      assert forall i :: 1 <= i < |reps| ==> reps[i] == rest[i - 1];
    }
  }

  /** The position map over the used words, as the source's `map` vector. */
  function PositionMap(c: seq<word>, reps: seq<Replacement>): (m: seq<Option<int>>)
    ensures |m| == |c| && forall q :: 0 <= q < |c| ==> m[q] == NewAt(reps, 0, 0, q)
  {
    seq(|c|, q => NewAt(reps, 0, 0, q))
  }

  // ---- relocating ----

  predicate TargetOk(m: seq<Option<int>>, r: Record) {
    Target(r.head) < |m| && m[Target(r.head)].Some? && 0 <= m[Target(r.head)].value < FIELD
  }

  function RelocateRecord(m: seq<Option<int>>, r: Record): Record
    requires TargetOk(m, r)
  {
    r.(head := Retarget(r.head, m[Target(r.head)].value))
  }

  function RelocateRecords(m: seq<Option<int>>, rs: seq<Record>): (out: seq<Record>)
    requires forall r <- rs :: TargetOk(m, r)
    ensures |out| == |rs| && forall i :: 0 <= i < |rs| ==> out[i] == RelocateRecord(m, rs[i])
  {
    seq(|rs|, i requires 0 <= i < |rs| => RelocateRecord(m, rs[i]))
  }

  predicate BlockOk(m: seq<Option<int>>, used: word, b: Block) {
    match b
    case Relocs(base, base2, records, _) => base == 0 && base2 == 0 && forall r <- records :: TargetOk(m, r)
    case Plain(kind, payload) =>
      if kind == USED then |payload| == 2 && payload[0] == used
      else (kind == 0x100 && |payload| == 1) || (kind == 0 && |payload| == 2)
  }

  function RelocateBlock(m: seq<Option<int>>, used: word, newUsed: word, b: Block): Block
    requires BlockOk(m, used, b)
  {
    match b
    case Relocs(base, base2, records, slack) => Relocs(base, base2, RelocateRecords(m, records), slack)
    case Plain(kind, payload) => if kind == USED then Plain(kind, payload[0 := newUsed]) else b
  }

  function RelocateBlocks(m: seq<Option<int>>, used: word, newUsed: word, bs: seq<Block>): (out: seq<Block>)
    requires forall b <- bs :: BlockOk(m, used, b)
    ensures |out| == |bs| && forall i :: 0 <= i < |bs| ==> out[i] == RelocateBlock(m, used, newUsed, bs[i])
  {
    seq(|bs|, i requires 0 <= i < |bs| => RelocateBlock(m, used, newUsed, bs[i]))
  }

  predicate IsUsed(b: Block) { b.Plain? && b.kind == USED }

  function UsedTokens(bs: seq<Block>): nat {
    if bs == [] then 0 else (if IsUsed(bs[0]) then 1 else 0) + UsedTokens(bs[1..])
  }

  predicate TableOk(m: seq<Option<int>>, used: word, capacity: nat, t: Table) {
    t.end == capacity && UsedTokens(t.blocks) == 1 && forall b <- t.blocks :: BlockOk(m, used, b)
  }

  function RelocateTable(m: seq<Option<int>>, used: word, newUsed: word, t: Table): Table
    requires forall b <- t.blocks :: BlockOk(m, used, b)
  {
    t.(blocks := RelocateBlocks(m, used, newUsed, t.blocks))
  }

  // ---- the whole rewrite ----

  predicate CommandsOk(b: Batch) {
    0 < b.used <= |b.commands| && b.commands[b.used - 1] == BATCH_END && |b.sideband| >= 6 &&
    AllZero(b.commands[b.used..]) && WalkOk(b.commands[..b.used])
  }

  predicate Accepts(b: Batch, reps: seq<Replacement>) {
    CommandsOk(b) &&
    var c := b.commands[..b.used];
    ReplacementsOk(c, reps) &&
    |Body(c, reps, 0)| <= |b.commands| &&
    Parse(b.sideband).Some? &&
    TableOk(PositionMap(c, reps), b.used, |b.commands|, Parse(b.sideband).value)
  }

  /** The rewritten batch, or None where the source returns false and leaves its output alone. */
  function Result(b: Batch, reps: seq<Replacement>): Option<Batch> {
    if !Accepts(b, reps) then None
    else
      var c := b.commands[..b.used];
      var body := Body(c, reps, 0);
      var t := Parse(b.sideband).value;
      assert t.Valid() by { FramingIsGrammar(b.sideband); }
      assert |body| < 0x1_0000_0000;
      RelocateValid(PositionMap(c, reps), b.used, |body|, t);
      Some(Batch(body + Zeros(|b.commands| - |body|),
                 Encode(RelocateTable(PositionMap(c, reps), b.used, |body|, t)), |body|))
  }

  lemma RelocateBlockValid(m: seq<Option<int>>, used: word, newUsed: word, b: Block)
    requires b.Valid() && BlockOk(m, used, b)
    ensures RelocateBlock(m, used, newUsed, b).Valid()
    ensures RelocateBlock(m, used, newUsed, b).Size() == b.Size()
  {
    if b.Relocs? {
      forall i | 0 <= i < |b.records| ensures TargetOk(m, b.records[i]) && RelocateRecord(m, b.records[i]).Valid() {
        assert b.records[i] in b.records;
        RetargetFields(b.records[i].head, m[Target(b.records[i].head)].value);
      }
    }
  }

  lemma RelocateValid(m: seq<Option<int>>, used: word, newUsed: word, t: Table)
    requires t.Valid() && forall b <- t.blocks :: BlockOk(m, used, b)
    ensures RelocateTable(m, used, newUsed, t).Valid()
  {
    forall i | 0 <= i < |t.blocks| ensures BlockOk(m, used, t.blocks[i]) &&
        RelocateBlock(m, used, newUsed, t.blocks[i]).Valid() {
      assert t.blocks[i] in t.blocks;
      RelocateBlockValid(m, used, newUsed, t.blocks[i]);
    }
  }
}
