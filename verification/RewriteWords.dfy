/** Which batches the rewriter accepts, said on the words of the commands and of the sideband. */
module RewriteWords {
  import opened Words
  import opened Seqs
  import opened Sideband
  import opened Rewrite
  import opened RewriteMeaning

  // ---- packets ----

  /** `starts` are the ends of packets of `c` that follow each other, up to the end of `c`. */
  predicate Parted(c: seq<word>, starts: seq<nat>) {
    |starts| > 0 && starts[|starts| - 1] == |c| && (forall i :: 0 <= i < |starts| ==> starts[i] <= |c|) &&
    forall i :: 0 <= i < |starts| - 1 ==> starts[i] < starts[i + 1] && Packet(c, starts[i], starts[i + 1])
  }

  lemma PartAt(c: seq<word>, starts: seq<nat>, k: nat)
    requires Parted(c, starts) && k + 1 < |starts|
    ensures starts[k] < starts[k + 1] <= |c| && Packet(c, starts[k], starts[k + 1])
  {
  }

  /** The walk of the packets from the k-th start on. */
  lemma {:induction false} WalkFrom(c: seq<word>, starts: seq<nat>, k: nat)
    requires Parted(c, starts) && k < |starts|
    ensures starts[k] <= |c| && WalkOk(c[starts[k]..])
    decreases |starts| - k
  {
    if k + 1 < |starts| {
      WalkFrom(c, starts, k + 1);
      PartAt(c, starts, k);
      WalkStep(c, starts[k], starts[k + 1]);
    }
  }

  /** It visits the starts and nothing else. */
  lemma {:induction false} StartsFrom(c: seq<word>, starts: seq<nat>, k: nat, q: nat)
    requires Parted(c, starts) && k < |starts| && starts[k] <= q < |c|
    ensures IsStart(c[starts[k]..], q - starts[k]) <==> q in starts[k..]
    decreases |starts| - k
  {
    if k + 1 < |starts| {
      PartAt(c, starts, k);
      StartsBelow(starts, k);
      StartStep(starts, k, q);
      StartAt(c, starts[k], starts[k + 1], q);
      if starts[k + 1] <= q { StartsFrom(c, starts, k + 1, q); }
    }
  }

  lemma WalkStep(c: seq<word>, at: nat, next: nat)
    requires at < next <= |c| && Packet(c, at, next) && WalkOk(c[next..])
    ensures WalkOk(c[at..])
  {
    PacketLength(c, at, next);
    CutDrop(c, at, next - at);
    assert c[at..][0] == c[at] && c[at..][next - at..] == c[next..];
  }

  lemma StartAt(c: seq<word>, at: nat, next: nat, q: nat)
    requires at < next <= |c| && Packet(c, at, next) && at <= q < |c|
    ensures IsStart(c[at..], q - at) <==> q == at || (next <= q && IsStart(c[next..], q - next))
  {
    PacketLength(c, at, next);
    CutDrop(c, at, next - at);
    assert c[at..][0] == c[at] && c[at..][next - at..] == c[next..];
  }

  lemma StartStep(starts: seq<nat>, k: nat, q: nat)
    requires k + 1 < |starts| && starts[k] < starts[k + 1]
    requires starts[k..] == [starts[k]] + starts[k + 1..]
    requires forall i :: k + 1 < i < |starts| ==> starts[k + 1] < starts[i]
    ensures q in starts[k..] <==> q == starts[k] || (starts[k + 1] <= q && q in starts[k + 1..])
  {
  }

  lemma {:induction false} StartsBelow(starts: seq<nat>, k: nat)
    requires k < |starts| && forall i :: 0 <= i < |starts| - 1 ==> starts[i] < starts[i + 1]
    ensures starts[k..] == [starts[k]] + starts[k + 1..]
    ensures forall i :: k < i < |starts| ==> starts[k] < starts[i]
    ensures forall i :: k + 1 < i < |starts| ==> starts[k + 1] < starts[i]
    decreases |starts| - k
  {
    if k + 1 < |starts| { StartsBelow(starts, k + 1); }
  }

  /** Words at..next are one packet of a kind the rewriter takes, on its header's bits. */
  predicate Packet(c: seq<word>, at: nat, next: nat)
    requires at < |c|
  {
    (c[at] / 0x80_0000 == 0 && next == at + 1) ||
    (c[at] / 0x80_0000 == 10 && next == at + 1 == |c|) ||
    (c[at] / 0x80_0000 in {32, 36, 38, 46} && next == at + c[at] % 64 + 2) ||
    (c[at] / 0x1_0000 == 0x6800 && next == at + 1) ||
    (c[at] / 0x2000_0000 == 3 && c[at] / 0x1_0000 != 0x6800 && next == at + c[at] % 4096 + 2)
  }

  lemma PacketLength(c: seq<word>, at: nat, next: nat)
    requires at < |c|
    ensures Packet(c, at, next) <==>
            0 < AuditedLength(c[at]) == next - at && (Type(c[at]) == 0 && Opcode(c[at]) == 10 ==> next == |c|)
  {
  }

  /** The starts of the packets of an accepted walk, and its end. */
  lemma {:induction false} WalkParts(c: seq<word>, at: nat) returns (starts: seq<nat>)
    requires at <= |c| && WalkOk(c[at..])
    ensures Parted(c, starts) && starts[0] == at
    decreases |c| - at
  {
    starts := [at];
    if at < |c| {
      var s := c[at..];
      var n := AuditedLength(s[0]);
      CutDrop(c, at, n);
      assert s[n..] == c[at + n..];
      var rest := WalkParts(c, at + n);
      PacketLength(c, at, at + n);
      PartedMore(c, at, rest);
      starts := starts + rest;
    }
  }

  lemma PartedMore(c: seq<word>, at: nat, rest: seq<nat>)
    requires Parted(c, rest) && at < rest[0] && Packet(c, at, rest[0])
    ensures Parted(c, [at] + rest)
  {
    var starts := [at] + rest;
    forall i | 1 <= i < |starts| ensures starts[i] == rest[i - 1] {}
    forall i | 0 <= i < |starts| - 1 ensures starts[i] < starts[i + 1] && Packet(c, starts[i], starts[i + 1]) {
      if i > 0 { assert rest[i - 1] < rest[i] && Packet(c, rest[i - 1], rest[i]); }
    }
  }

  /** The starts of a walk that begins at the first word. */
  lemma WalkWhole(c: seq<word>, starts: seq<nat>)
    requires Parted(c, starts) && starts[0] == 0
    ensures WalkOk(c)
    ensures forall q :: 0 <= q < |c| ==> (IsStart(c, q) <==> q in starts)
  {
    assert c[0..] == c && starts[0..] == starts;
    WalkFrom(c, starts, 0);
    forall q | 0 <= q < |c| ensures IsStart(c, q) <==> q in starts { StartsFrom(c, starts, 0, q); }
  }

  // ---- replacements ----

  /** A media packet of `c` gives way to one of the same kind, behind one of the prologs, with address pairs
      inside both packets and no word of the old one twice. */
  predicate Replaces(c: seq<word>, starts: seq<nat>, r: Replacement) {
    r.at < |c| && r.at in starts && c[r.at] / 0x2000_0000 == 3 && r.size == c[r.at] % 4096 + 2 &&
    |r.words| > 0 && r.words[0] / 0x1_0000 == c[r.at] / 0x1_0000 && |r.words| == r.words[0] % 4096 + 2 &&
    (r.before == [] || r.before == [0x1d000000, 0x03000300, 0x708b0000, 1, 0x738a0001, 1, 0, 0x68000100] ||
     (c[r.at] == 0x77800000 && r.before == [0x738a0001, 0, 4]) ||
     (c[r.at] == 0x73820077 && r.before == [0x73810003, 0x50000000, 0x20000000, 0, 0])) &&
    (forall i :: 0 <= i < |r.addresses| ==> 0 < r.addresses[i].0 < r.size && 0 < r.addresses[i].1 < |r.words|) &&
    (forall i, j :: 0 <= i < j < |r.addresses| ==> r.addresses[i].0 != r.addresses[j].0)
  }

  lemma ReplacementOnWords(c: seq<word>, starts: seq<nat>, r: Replacement)
    requires forall q :: 0 <= q < |c| ==> (IsStart(c, q) <==> q in starts)
    ensures ReplacementOk(c, r) <==> Replaces(c, starts, r)
  {
    AddressesByIndex(r);
    if r.at < |c| {
      BeforeOnWords(c[r.at], r.before);
      if r.words != [] && c[r.at] / 0x1_0000 == r.words[0] / 0x1_0000 { SameType(c[r.at], r.words[0]); }
    }
  }

  lemma BeforeOnWords(header: word, before: seq<word>)
    ensures BeforeOk(header, before) <==>
            (before == [] || before == [0x1d000000, 0x03000300, 0x708b0000, 1, 0x738a0001, 1, 0, 0x68000100] ||
             (header == 0x77800000 && before == [0x738a0001, 0, 4]) ||
             (header == 0x73820077 && before == [0x73810003, 0x50000000, 0x20000000, 0, 0]))
  {
  }

  lemma SameType(a: word, b: word)
    requires a / 0x1_0000 == b / 0x1_0000
    ensures Type(a) == Type(b)
  {
    assert a / 0x2000_0000 == a / 0x1_0000 / 0x2000 && b / 0x2000_0000 == b / 0x1_0000 / 0x2000;
  }

  lemma AddressesByIndex(r: Replacement)
    ensures AddressesOk(r) <==>
            ((forall i :: 0 <= i < |r.addresses| ==>
                0 < r.addresses[i].0 < r.size && 0 < r.addresses[i].1 < |r.words|) &&
             (forall i, j :: 0 <= i < j < |r.addresses| ==> r.addresses[i].0 != r.addresses[j].0))
  {
    assert forall i :: 0 <= i < |r.addresses| ==> r.addresses[i] in r.addresses;
  }

  /** One after the other, and inside n words. */
  predicate InOrder(n: nat, reps: seq<Replacement>) {
    (forall k :: 0 <= k < |reps| ==> reps[k].at + reps[k].size <= n) &&
    (forall k :: 0 <= k < |reps| - 1 ==> reps[k].at + reps[k].size <= reps[k + 1].at)
  }

  lemma ReplacementsOnWords(c: seq<word>, starts: seq<nat>, reps: seq<Replacement>)
    requires forall q :: 0 <= q < |c| ==> (IsStart(c, q) <==> q in starts)
    ensures ReplacementsOk(c, reps) <==>
            (forall k :: 0 <= k < |reps| ==> Replaces(c, starts, reps[k])) && InOrder(|c|, reps)
  {
    forall k | 0 <= k < |reps|
      ensures reps[k] in reps && (ReplacementOk(c, reps[k]) <==> Replaces(c, starts, reps[k]))
    {
      ReplacementOnWords(c, starts, reps[k]);
    }
    if forall k :: 0 <= k < |reps| ==> Replaces(c, starts, reps[k]) {
      forall k | 0 <= k < |reps| ensures 0 < reps[k].size { assert Replaces(c, starts, reps[k]); }
      OrderedOnNumbers(|c|, reps, 0);
    }
  }

  lemma {:induction false} OrderedOnNumbers(n: nat, reps: seq<Replacement>, pos: nat)
    requires pos <= n && forall k :: 0 <= k < |reps| ==> 0 < reps[k].size
    ensures Ordered(n, reps, pos) <==>
            ((forall k :: 0 <= k < |reps| ==> reps[k].at + reps[k].size <= n) &&
             (|reps| > 0 ==> pos <= reps[0].at) &&
             (forall k :: 0 <= k < |reps| - 1 ==> reps[k].at + reps[k].size <= reps[k + 1].at))
  {
    if reps != [] {
      var rest, end := reps[1..], End(reps[0]);
      if end <= n {
        OrderedOnNumbers(n, rest, end);
        Follow(reps, n);
      }
    }
  }

  lemma Follow(reps: seq<Replacement>, n: nat)
    requires reps != []
    ensures var rest := reps[1..];
            ((forall k :: 0 <= k < |rest| ==> End(rest[k]) <= n) && End(reps[0]) <= n <==>
             forall k :: 0 <= k < |reps| ==> End(reps[k]) <= n) &&
            ((|rest| > 0 ==> End(reps[0]) <= rest[0].at) &&
             (forall k :: 0 <= k < |rest| - 1 ==> End(rest[k]) <= rest[k + 1].at) <==>
             forall k :: 0 <= k < |reps| - 1 ==> End(reps[k]) <= reps[k + 1].at)
  {
    var rest := reps[1..];
    forall k | 0 <= k < |reps| ensures k > 0 ==> reps[k] == rest[k - 1] {}
    forall k | 0 <= k < |rest| ensures rest[k] == reps[k + 1] {}
    if forall k :: 0 <= k < |reps| - 1 ==> End(reps[k]) <= reps[k + 1].at {
      forall k | 0 <= k < |rest| - 1 ensures End(rest[k]) <= rest[k + 1].at {
        assert End(reps[k + 1]) <= reps[k + 2].at;
      }
    } else {
      var k :| 0 <= k < |reps| - 1 && End(reps[k]) > reps[k + 1].at;
      assert k > 0 ==> End(rest[k - 1]) > rest[k].at;
    }
  }

  /** How much longer the replacements make the commands. */
  function Growth(reps: seq<Replacement>): int {
    if reps == [] then 0 else |reps[0].before| + |reps[0].words| - reps[0].size + Growth(reps[1..])
  }

  lemma {:induction false} BodyLength(s: seq<word>, reps: seq<Replacement>, pos: nat)
    requires Ordered(pos + |s|, reps, pos)
    ensures |Body(s, reps, pos)| == |s| + Growth(reps)
  {
    if reps != [] { BodyLength(s[End(reps[0]) - pos..], reps[1..], End(reps[0])); }
  }

  // ---- the sideband ----

  lemma BlockOnWords(m: seq<Option<int>>, used: word, b: Block)
    ensures BlockOk(m, used, b) <==>
            match b
            case Relocs(base, base2, records, _) =>
              base == 0 && base2 == 0 &&
              forall j :: 0 <= j < |records| ==>
                var q := records[j].head / 32 % 0x10_0000;
                q < |m| && m[q].Some? && 0 <= m[q].value < 0x10_0000
            case Plain(kind, payload) =>
              (kind == 0x8000 && |payload| == 2 && payload[0] == used) || (kind == 0x100 && |payload| == 1) ||
              (kind == 0 && |payload| == 2)
  {
    if b.Relocs? { assert forall j :: 0 <= j < |b.records| ==> b.records[j] in b.records; }
  }

  lemma {:induction false} NoUsed(bs: seq<Block>)
    ensures UsedTokens(bs) == 0 <==> forall i :: 0 <= i < |bs| ==> !(bs[i].Plain? && bs[i].kind == 0x8000)
  {
    if bs != [] {
      NoUsed(bs[1..]);
      assert forall i :: 1 <= i < |bs| ==> bs[i] == bs[1..][i - 1];
    }
  }

  lemma {:induction false} UsedAlone(bs: seq<Block>, u: nat)
    requires u < |bs| && bs[u].Plain? && bs[u].kind == 0x8000
    requires forall i :: 0 <= i < |bs| && i != u ==> !(bs[i].Plain? && bs[i].kind == 0x8000)
    ensures UsedTokens(bs) == 1
  {
    var rest := bs[1..];
    forall i | 0 <= i < |rest| ensures rest[i] == bs[i + 1] {}
    if u == 0 { NoUsed(rest); } else { UsedAlone(rest, u - 1); }
  }

  lemma {:induction false} UsedFound(bs: seq<Block>) returns (u: nat)
    requires UsedTokens(bs) == 1
    ensures u < |bs| && bs[u].Plain? && bs[u].kind == 0x8000
    ensures forall i :: 0 <= i < |bs| && i != u ==> !(bs[i].Plain? && bs[i].kind == 0x8000)
  {
    var rest := bs[1..];
    forall i | 0 < i < |bs| ensures bs[i] == rest[i - 1] {}
    if IsUsed(bs[0]) {
      NoUsed(rest);
      u := 0;
    } else {
      u := UsedFound(rest);
      u := u + 1;
    }
  }

  /** One block holds the used size: there is exactly one of kind 0x8000. */
  lemma OneUsed(bs: seq<Block>)
    ensures UsedTokens(bs) == 1 <==>
            exists u :: 0 <= u < |bs| && bs[u].Plain? && bs[u].kind == 0x8000 &&
                        forall i :: 0 <= i < |bs| && i != u ==> !(bs[i].Plain? && bs[i].kind == 0x8000)
  {
    if UsedTokens(bs) == 1 {
      var u := UsedFound(bs);
    } else if exists u :: 0 <= u < |bs| && bs[u].Plain? && bs[u].kind == 0x8000 &&
                forall i :: 0 <= i < |bs| && i != u ==> !(bs[i].Plain? && bs[i].kind == 0x8000) {
      var u :| 0 <= u < |bs| && bs[u].Plain? && bs[u].kind == 0x8000 &&
               forall i :: 0 <= i < |bs| && i != u ==> !(bs[i].Plain? && bs[i].kind == 0x8000);
      UsedAlone(bs, u);
      assert false;
    }
  }

  /** The word a relocation targets has a new position that fits its field. */
  predicate Placed(reps: seq<Replacement>, used: nat, head: word) {
    var q := head / 32 % 0x10_0000;
    q < used && NewAt(reps, 0, 0, q).Some? && 0 <= NewAt(reps, 0, 0, q).value < 0x10_0000
  }

  /** A block the rewriter takes: relocations with zero bases, the used size, or one of two others. */
  predicate Movable(reps: seq<Replacement>, used: nat, b: Block) {
    match b
    case Relocs(base, base2, records, _) =>
      base == 0 && base2 == 0 && forall j :: 0 <= j < |records| ==> Placed(reps, used, records[j].head)
    case Plain(kind, payload) =>
      (kind == 0x8000 && |payload| == 2 && payload[0] == used) || (kind == 0x100 && |payload| == 1) ||
      (kind == 0 && |payload| == 2)
  }

  lemma TableOnWords(c: seq<word>, reps: seq<Replacement>, used: word, capacity: nat, t: Table)
    requires |c| == used
    ensures TableOk(PositionMap(c, reps), used, capacity, t) <==>
            (t.end == capacity && (forall i :: 0 <= i < |t.blocks| ==> Movable(reps, used, t.blocks[i])) &&
             (exists u :: 0 <= u < |t.blocks| && t.blocks[u].Plain? && t.blocks[u].kind == 0x8000 &&
                forall i :: 0 <= i < |t.blocks| && i != u ==> !(t.blocks[i].Plain? && t.blocks[i].kind == 0x8000)))
  {
    OneUsed(t.blocks);
    var m := PositionMap(c, reps);
    forall i | 0 <= i < |t.blocks|
      ensures t.blocks[i] in t.blocks && (BlockOk(m, used, t.blocks[i]) <==> Movable(reps, used, t.blocks[i]))
    {
      BlockOnWords(m, used, t.blocks[i]);
    }
  }

  // ---- the whole rewrite ----

  /** Which batches are accepted. Take used words that split into packets of the kinds the rewriter knows,
      and a well-framed sideband: the rewrite is made exactly if the used words end in the batch end and
      only zeros follow, the replacements are sound and in order, the new words fit, and the sideband ends
      in the capacity, has one used size, and no block that cannot be moved. */
  lemma AcceptsExactly(b: Batch, reps: seq<Replacement>, starts: seq<nat>, t: Table)
    requires 0 < b.used <= |b.commands| && Parted(b.commands[..b.used], starts) && starts[0] == 0
    requires t.Valid() && Encode(t) == b.sideband
    ensures Result(b, reps).Some? <==>
            (b.commands[b.used - 1] == 0x0500_0000 && (forall i :: b.used <= i < |b.commands| ==> b.commands[i] == 0) &&
             (forall k :: 0 <= k < |reps| ==> Replaces(b.commands[..b.used], starts, reps[k])) &&
             InOrder(b.used, reps) && b.used + Growth(reps) <= |b.commands| &&
             t.end == |b.commands| && (forall i :: 0 <= i < |t.blocks| ==> Movable(reps, b.used, t.blocks[i])) &&
             (exists u :: 0 <= u < |t.blocks| && t.blocks[u].Plain? && t.blocks[u].kind == 0x8000 &&
                forall i :: 0 <= i < |t.blocks| && i != u ==> !(t.blocks[i].Plain? && t.blocks[i].kind == 0x8000)))
  {
    var c := b.commands[..b.used];
    WalkWhole(c, starts);
    ReplacementsOnWords(c, starts, reps);
    AcceptsInParts(b, reps, t);
    CommandsOnWords(b);
    if ReplacementsOk(c, reps) { BodyLength(c, reps, 0); }
    TableOnWords(c, reps, b.used, |b.commands|, t);
  }

  lemma CommandsOnWords(b: Batch)
    requires 0 < b.used <= |b.commands| && WalkOk(b.commands[..b.used]) && |b.sideband| >= 6
    ensures CommandsOk(b) <==>
            b.commands[b.used - 1] == 0x0500_0000 && (forall i :: b.used <= i < |b.commands| ==> b.commands[i] == 0)
  {
    var rest := b.commands[b.used..];
    forall i | 0 <= i < |rest| ensures rest[i] == b.commands[b.used + i] {}
    forall i | b.used <= i < |b.commands| ensures b.commands[i] == rest[i - b.used] {}
  }

  lemma AcceptsInParts(b: Batch, reps: seq<Replacement>, t: Table)
    requires t.Valid() && Encode(t) == b.sideband && b.used <= |b.commands|
    ensures |b.sideband| >= 6
    ensures var c := b.commands[..b.used];
            Result(b, reps).Some? <==>
            CommandsOk(b) && ReplacementsOk(c, reps) && |Body(c, reps, 0)| <= |b.commands| &&
            TableOk(PositionMap(c, reps), b.used, |b.commands|, t)
  {
    ParseEncode(t);
  }

  /** Every accepted batch is one of those; so a batch with any other header, or a packet that runs past
      the used words, is refused. */
  lemma AcceptedParts(b: Batch, reps: seq<Replacement>) returns (starts: seq<nat>, t: Table)
    requires Result(b, reps).Some?
    ensures 0 < b.used <= |b.commands| && Parted(b.commands[..b.used], starts) && starts[0] == 0
    ensures t.Valid() && Encode(t) == b.sideband
  {
    var c := b.commands[..b.used];
    assert c[0..] == c;
    starts := WalkParts(c, 0);
    FramingIsGrammar(b.sideband);
    t := Parse(b.sideband).value;
  }

  lemma {:induction false} WalkComesTo(c: seq<word>, starts: seq<nat>, k: nat)
    requires k < |starts| && starts[0] == 0 && (forall i :: 0 <= i < |starts| ==> starts[i] <= |c|)
    requires forall i :: 0 <= i < |starts| - 1 ==> starts[i] < starts[i + 1] && Packet(c, starts[i], starts[i + 1])
    requires WalkOk(c)
    ensures WalkOk(c[starts[k]..])
  {
    if k == 0 {
      assert c[0..] == c;
    } else {
      WalkComesTo(c, starts, k - 1);
      var at, next := starts[k - 1], starts[k];
      assert Packet(c, at, next);
      PacketLength(c, at, next);
      CutDrop(c, at, next - at);
      assert c[at..][0] == c[at] && c[at..][next - at..] == c[next..];
    }
  }

  /** A batch is refused where, behind some such packets, no packet of these kinds follows inside the used
      words: a header of another kind, a batch end too early, or a packet that is too long. */
  lemma OtherHeaderRefused(b: Batch, reps: seq<Replacement>, starts: seq<nat>, at: nat)
    requires b.used <= |b.commands| && at < b.used && |starts| > 0 && starts[0] == 0 && starts[|starts| - 1] == at
    requires forall i :: 0 <= i < |starts| ==> starts[i] <= b.used
    requires forall i :: 0 <= i < |starts| - 1 ==>
               starts[i] < starts[i + 1] && Packet(b.commands[..b.used], starts[i], starts[i + 1])
    requires forall next :: at < next <= b.used ==> !Packet(b.commands[..b.used], at, next)
    ensures Result(b, reps).None?
  {
    var c := b.commands[..b.used];
    if WalkOk(c) {
      WalkComesTo(c, starts, |starts| - 1);
      var n := AuditedLength(c[at..][0]);
      PacketLength(c, at, at + n);
      assert false;
    }
  }

  /** What an accepted rewrite makes of the sideband, on its words: in each relocation the target bits 5 to
      24 become the new position of the word they meant, and no other bit changes; the used size becomes
      the new one; everything else stays. */
  lemma SidebandOnWords(b: Batch, reps: seq<Replacement>, t: Table, i: nat)
    requires Accepts(b, reps) && Parse(b.sideband) == Some(t) && i < |t.blocks|
    ensures Parse(Result(b, reps).value.sideband).Some?
    ensures var t' := Parse(Result(b, reps).value.sideband).value;
            t'.header == t.header && t'.end == t.end && |t'.blocks| == |t.blocks| &&
            match t.blocks[i]
            case Plain(kind, payload) =>
              t'.blocks[i] == Plain(kind, if kind == 0x8000 && payload != [] then
                                            [Result(b, reps).value.used] + payload[1..] else payload)
            case Relocs(base, base2, records, slack) =>
              t'.blocks[i].Relocs? && t'.blocks[i] == Relocs(base, base2, t'.blocks[i].records, slack) &&
              |t'.blocks[i].records| == |records| &&
              forall j :: 0 <= j < |records| ==>
                var (r, r') := (records[j], t'.blocks[i].records[j]);
                r' == r.(head := r'.head) && r'.head % 32 == r.head % 32 &&
                r'.head / 0x200_0000 == r.head / 0x200_0000 &&
                NewAt(reps, 0, 0, r.head / 32 % 0x10_0000) == Some(r'.head / 32 % 0x10_0000)
  {
    RelocationMeaning(b, reps);
    var out, t' := Result(b, reps).value, Parse(Result(b, reps).value.sideband).value;
    BlockChanges(b, reps, out, t.blocks[i], t'.blocks[i]);
  }

  lemma BlockChanges(b: Batch, reps: seq<Replacement>, out: Batch, x: Block, y: Block)
    requires BlockFollows(b, reps, out, x, y)
    ensures match x
            case Plain(kind, payload) =>
              y == Plain(kind, if kind == 0x8000 && payload != [] then [out.used] + payload[1..] else payload)
            case Relocs(base, base2, records, slack) =>
              y.Relocs? && y == Relocs(base, base2, y.records, slack) && |y.records| == |records| &&
              forall j :: 0 <= j < |records| ==>
                var (r, r') := (records[j], y.records[j]);
                r' == r.(head := r'.head) && r'.head % 32 == r.head % 32 &&
                r'.head / 0x200_0000 == r.head / 0x200_0000 &&
                NewAt(reps, 0, 0, r.head / 32 % 0x10_0000) == Some(r'.head / 32 % 0x10_0000)
  {
    match x
    case Plain(kind, payload) =>
      if payload != [] { assert payload[0 := out.used] == [out.used] + payload[1..]; }
    case Relocs(base, base2, records, slack) =>
      forall j | 0 <= j < |records|
        ensures var (r, r') := (records[j], y.records[j]);
                r' == r.(head := r'.head) && r'.head % 32 == r.head % 32 &&
                r'.head / 0x200_0000 == r.head / 0x200_0000 &&
                NewAt(reps, 0, 0, r.head / 32 % 0x10_0000) == Some(r'.head / 32 % 0x10_0000)
      {
        HeadChanges(b, reps, out, records[j], y.records[j]);
      }
  }

  lemma HeadChanges(b: Batch, reps: seq<Replacement>, out: Batch, r: Record, r': Record)
    requires Follows(b, reps, out, r, r')
    ensures r' == r.(head := r'.head) && r'.head % 32 == r.head % 32 &&
            r'.head / 0x200_0000 == r.head / 0x200_0000 &&
            NewAt(reps, 0, 0, r.head / 32 % 0x10_0000) == Some(r'.head / 32 % 0x10_0000)
  {
    RetargetFields(r.head, Target(r'.head));
  }

  /** How `prepare` reads a packet's size: one word for the memory-interface commands 0 and 10 and for a
      wait; the low 6 bits and two for the other commands of that kind, the low 12 bits and two for all
      other kinds. */
  lemma LengthOnWords(h: word)
    ensures h / 0x80_0000 in {0, 10} || h / 0x1_0000 == 0x6800 ==> Length(h) == 1
    ensures h < 0x2000_0000 && h / 0x80_0000 !in {0, 10} ==> Length(h) == h % 64 + 2
    ensures h >= 0x2000_0000 && h / 0x1_0000 != 0x6800 ==> Length(h) == h % 4096 + 2
  {
  }
}
