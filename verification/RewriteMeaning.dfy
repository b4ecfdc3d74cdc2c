/** What an accepted rewrite preserves: copied words, relocation targets, packets. */
module RewriteMeaning {
  import opened Words
  import opened Seqs
  import opened Sideband
  import opened Rewrite

  // ---- the position map ----

  /** A copied word keeps its value at its new position. */
  lemma {:induction false} CopiedWord(s: seq<word>, reps: seq<Replacement>, pos: nat, base: int, q: nat,
      body: seq<word>)
    requires Ordered(pos + |s|, reps, pos) && body == Body(s, reps, pos)
    requires pos <= q < pos + |s| && Copied(reps, q)
    ensures NewAt(reps, pos, base, q).Some?
    ensures base <= NewAt(reps, pos, base, q).value < base + |body|
    ensures body[NewAt(reps, pos, base, q).value - base] == s[q - pos]
  {
    if reps != [] {
      var r := reps[0];
      var lead, rest := s[..r.at - pos], s[End(r) - pos..];
      var tail := Body(rest, reps[1..], End(r));
      CopiedRest(reps, q);
      if q < r.at {
        IndexHead(lead, r.before + (r.words + tail), q - pos);
      } else {
        var base' := base + |lead| + |r.before| + |r.words|;
        CopiedWord(rest, reps[1..], End(r), base', q, tail);
        IndexTail(lead, r.before, r.words, tail, NewAt(reps[1..], End(r), base', q).value - base');
      }
    }
  }

  lemma IndexHead(a: seq<word>, b: seq<word>, i: nat)
    requires i < |a|
    ensures (a + b)[i] == a[i]
  {
  }

  lemma IndexTail(a: seq<word>, b: seq<word>, c: seq<word>, tail: seq<word>, i: nat)
    requires i < |tail|
    ensures (a + (b + (c + tail)))[|a| + |b| + |c| + i] == tail[i]
  {
  }

  lemma CopiedRest(reps: seq<Replacement>, q: int)
    requires reps != [] && Copied(reps, q)
    ensures !Replaced(reps[0], q) && Copied(reps[1..], q)
  {
    assert forall x <- reps[1..] :: x in reps;
  }

  /** Copied words keep their order. */
  lemma {:induction false} CopiedOrder(n: nat, reps: seq<Replacement>, pos: nat, base: int, p: nat, q: nat)
    requires Ordered(n, reps, pos)
    requires pos <= p < q < n && Copied(reps, p) && Copied(reps, q)
    ensures NewAt(reps, pos, base, p).Some? && NewAt(reps, pos, base, q).Some?
    ensures base <= NewAt(reps, pos, base, p).value < NewAt(reps, pos, base, q).value
  {
    if reps != [] && reps[0].at <= q {
      var r, rest := reps[0], reps[1..];
      CopiedRest(reps, p);
      CopiedRest(reps, q);
      var start := base + r.at - pos + |r.before| + |r.words|;
      if r.at <= p {
        CopiedOrder(n, rest, End(r), start, p, q);
      } else {
        CopiedAfter(n, rest, End(r), start, q);
      }
    }
  }

  lemma {:induction false} CopiedAfter(n: nat, reps: seq<Replacement>, pos: nat, base: int, q: nat)
    requires Ordered(n, reps, pos)
    requires pos <= q < n && Copied(reps, q)
    ensures NewAt(reps, pos, base, q).Some? && base <= NewAt(reps, pos, base, q).value
  {
    if reps != [] && reps[0].at <= q {
      CopiedRest(reps, q);
      CopiedAfter(n, reps[1..], End(reps[0]), base + reps[0].at - pos + |reps[0].before| + |reps[0].words|, q);
    }
  }

  lemma {:induction false} LookupPair(pairs: seq<(nat, nat)>, i: nat)
    requires i < |pairs|
    requires forall i, j :: 0 <= i < j < |pairs| ==> pairs[i].0 != pairs[j].0
    ensures Lookup(pairs, pairs[i].0) == Some(pairs[i].1)
  {
    if i > 0 { LookupPair(pairs[1..], i - 1); }
  }

  lemma {:induction false} LookupFound(pairs: seq<(nat, nat)>, x: int)
    requires x >= 0 && Lookup(pairs, x).Some?
    ensures (x, Lookup(pairs, x).value) in pairs
  {
    if pairs[0].0 != x { LookupFound(pairs[1..], x); }
  }

  /** The map sends word q of the k-th replaced packet to the start of the new packet plus what its
      offset is looked up as. */
  lemma {:induction false} ReplacedMap(n: nat, reps: seq<Replacement>, pos: nat, base: int, k: nat, q: nat)
    requires Ordered(n, reps, pos)
    requires k < |reps| && Replaced(reps[k], q)
    ensures pos <= q
    ensures NewAt(reps, pos, base, q) ==
              match Lookup(reps[k].addresses, q - reps[k].at)
              case None => None
              case Some(d) => Some(PacketStart(reps, pos, base, k) + d)
  {
    if k > 0 {
      var r, rest := reps[0], reps[1..];
      assert rest[k - 1] == reps[k];
      ReplacedMap(n, rest, End(r), base + r.at - pos + |r.before| + |r.words|, k - 1, q);
    }
  }

  /** The rebuilt words before the k-th new packet, and those after it. */
  function Before(s: seq<word>, reps: seq<Replacement>, pos: nat, k: nat): seq<word>
    requires Ordered(pos + |s|, reps, pos) && k < |reps|
  {
    var r := reps[0];
    if k == 0 then s[..r.at - pos] + r.before
    else s[..r.at - pos] + r.before + r.words + Before(s[End(r) - pos..], reps[1..], End(r), k - 1)
  }

  function After(s: seq<word>, reps: seq<Replacement>, pos: nat, k: nat): seq<word>
    requires Ordered(pos + |s|, reps, pos) && k < |reps|
  {
    var r := reps[0];
    if k == 0 then Body(s[End(r) - pos..], reps[1..], End(r)) else After(s[End(r) - pos..], reps[1..], End(r), k - 1)
  }

  /** The new packet of the k-th replacement stands at PacketStart, word for word. */
  lemma {:induction false} ReplacedPacket(s: seq<word>, reps: seq<Replacement>, pos: nat, base: int, k: nat)
    requires Ordered(pos + |s|, reps, pos) && k < |reps|
    ensures PacketStart(reps, pos, base, k) == base + |Before(s, reps, pos, k)|
    ensures Body(s, reps, pos) == Before(s, reps, pos, k) + (reps[k].words + After(s, reps, pos, k))
  {
    var r := reps[0];
    var lead, rest := s[..r.at - pos], s[End(r) - pos..];
    if k == 0 {
      Assoc(lead, r.before, r.words + Body(rest, reps[1..], End(r)));
    } else {
      ReplacedPacket(rest, reps[1..], End(r), base + |lead| + |r.before| + |r.words|, k - 1);
      Regroup(lead, r.before, r.words, Before(rest, reps[1..], End(r), k - 1),
          reps[k].words + After(rest, reps[1..], End(r), k - 1));
    }
  }

  lemma Regroup(a: seq<word>, b: seq<word>, c: seq<word>, d: seq<word>, e: seq<word>)
    ensures a + (b + (c + (d + e))) == (a + b + c + d) + e
  {
  }

  // ---- relocation meaning ----

  /** One relocated record against its original: only the target field moves, and it moves to an
      equal word or to the declared word of the new packet. */
  ghost predicate Follows(b: Batch, reps: seq<Replacement>, out: Batch, before: Record, after: Record) {
    after == before.(head := Retarget(before.head, Target(after.head))) &&
    MovesTo(b, reps, out, Target(before.head), Target(after.head))
  }

  /** New position q' is the one position the map gives old position q, and means in the output what
      q meant in the input: the copied word itself, or the declared word of the packet that replaces
      q's, counted from where that packet starts. */
  ghost predicate MovesTo(b: Batch, reps: seq<Replacement>, out: Batch, q: nat, q': int) {
    q < b.used <= |b.commands| && 0 <= q' < out.used <= |out.commands| && NewAt(reps, 0, 0, q) == Some(q') &&
    if Copied(reps, q) then out.commands[q'] == b.commands[q]
    else exists k, d ::
           Declared(reps, k, q, d) && q' == PacketStart(reps, 0, 0, k) + d && Starts(out, q' - d, reps[k].words)
  }

  /** The k-th replacement declares that word q of its old packet becomes word d of its new one. */
  predicate Declared(reps: seq<Replacement>, k: int, q: int, d: nat) {
    0 <= k < |reps| && Replaced(reps[k], q) && (q - reps[k].at, d) in reps[k].addresses && d < |reps[k].words|
  }

  predicate Starts(out: Batch, at: int, words: seq<word>) {
    0 <= at && at + |words| <= out.used <= |out.commands| && out.commands[at..at + |words|] == words
  }

  /** No word is in two replaced packets. */
  lemma OneReplacement(n: nat, reps: seq<Replacement>, j: nat, k: nat, q: nat)
    requires Ordered(n, reps, 0) && j < |reps| && k < |reps| && Replaced(reps[j], q) && Replaced(reps[k], q)
    ensures j == k
  {
    Sorted(n, reps, 0);
    var a, b := reps[j], reps[k];
    assert j < k ==> End(a) <= b.at;
    assert k < j ==> End(b) <= a.at;
  }

  /** A word of a replaced packet has a new position exactly when its replacement declares one, and
      then it is the one declared. */
  lemma DeclaredExactly(n: nat, reps: seq<Replacement>, k: nat, q: nat, d: nat)
    requires Ordered(n, reps, 0) && k < |reps| && Replaced(reps[k], q) && AddressesOk(reps[k])
    ensures NewAt(reps, 0, 0, q) == Some(PacketStart(reps, 0, 0, k) + d) <==> Declared(reps, k, q, d)
    ensures forall j, e :: Declared(reps, j, q, e) && Declared(reps, k, q, d) ==> j == k && e == d
  {
    ReplacedMap(n, reps, 0, 0, k, q);
    LookupDeclared(reps[k], q - reps[k].at, d);
    forall j, e | Declared(reps, j, q, e) && Declared(reps, k, q, d) ensures j == k && e == d {
      OneReplacement(n, reps, j, k, q);
      LookupDeclared(reps[k], q - reps[k].at, e);
    }
  }

  lemma LookupDeclared(r: Replacement, x: nat, d: nat)
    requires AddressesOk(r)
    ensures Lookup(r.addresses, x) == Some(d) <==> (x, d) in r.addresses
    ensures (x, d) in r.addresses ==> d < |r.words|
  {
    if Lookup(r.addresses, x) == Some(d) { LookupFound(r.addresses, x); }
    if (x, d) in r.addresses {
      var i :| 0 <= i < |r.addresses| && r.addresses[i] == (x, d);
      LookupPair(r.addresses, i);
    }
  }

  /** A block of the output against the block it came from. */
  ghost predicate BlockFollows(b: Batch, reps: seq<Replacement>, out: Batch, x: Block, y: Block) {
    match x
    case Plain(kind, payload) =>
      y == if kind == USED && payload != [] then Plain(kind, payload[0 := out.used]) else x
    case Relocs(base, base2, records, slack) =>
      y.Relocs? && y == Relocs(base, base2, y.records, slack) && |y.records| == |records| &&
      forall j :: 0 <= j < |records| ==> Follows(b, reps, out, records[j], y.records[j])
  }

  /** What the commands of a result are, without its sideband. */
  predicate Rebuilt(b: Batch, reps: seq<Replacement>, out: Batch) {
    b.used <= |b.commands| && out.used <= |out.commands| &&
    Ordered(b.used, reps, 0) && (forall r <- reps :: AddressesOk(r)) &&
    out.commands[..out.used] == Body(b.commands[..b.used], reps, 0)
  }

  lemma CopiedMoves(b: Batch, reps: seq<Replacement>, out: Batch, q: nat)
    requires Rebuilt(b, reps, out) && q < b.used && Copied(reps, q)
    ensures NewAt(reps, 0, 0, q).Some? && MovesTo(b, reps, out, q, NewAt(reps, 0, 0, q).value)
  {
    var c := b.commands[..b.used];
    CopiedWord(c, reps, 0, 0, q, Body(c, reps, 0));
    var v := NewAt(reps, 0, 0, q).value;
    assert out.commands[..out.used][v] == out.commands[v] && c[q] == b.commands[q];
  }

  lemma MiddleWindow(a: seq<word>, b: seq<word>, c: seq<word>)
    ensures (a + (b + c))[|a|..|a| + |b|] == b
  {
  }

  lemma DeclaredMoves(b: Batch, reps: seq<Replacement>, out: Batch, q: nat)
    requires Rebuilt(b, reps, out) && q < b.used && !Copied(reps, q) && NewAt(reps, 0, 0, q).Some?
    ensures MovesTo(b, reps, out, q, NewAt(reps, 0, 0, q).value)
  {
    var k :| 0 <= k < |reps| && Replaced(reps[k], q);
    ReplacedMap(b.used, reps, 0, 0, k, q);
    var d := Lookup(reps[k].addresses, q - reps[k].at).value;
    assert AddressesOk(reps[k]);
    DeclaredExactly(b.used, reps, k, q, d);
    PacketMoves(b, reps, out, k);
    assert Declared(reps, k, q, d) && Starts(out, NewAt(reps, 0, 0, q).value - d, reps[k].words);
  }

  lemma PacketMoves(b: Batch, reps: seq<Replacement>, out: Batch, k: nat)
    requires Rebuilt(b, reps, out) && k < |reps|
    ensures Starts(out, PacketStart(reps, 0, 0, k), reps[k].words)
  {
    var c, start := b.commands[..b.used], PacketStart(reps, 0, 0, k);
    ReplacedPacket(c, reps, 0, 0, k);
    MiddleWindow(Before(c, reps, 0, k), reps[k].words, After(c, reps, 0, k));
    TakeWindow(out.commands, out.used, start, start + |reps[k].words|);
  }

  lemma RelocatedTarget(m: seq<Option<int>>, r: Record)
    requires TargetOk(m, r)
    ensures Target(RelocateRecord(m, r).head) == m[Target(r.head)].value
  {
    RetargetFields(r.head, m[Target(r.head)].value);
  }

  lemma RelocationFollows(b: Batch, reps: seq<Replacement>, out: Batch, m: seq<Option<int>>, r: Record)
    requires Rebuilt(b, reps, out) && m == PositionMap(b.commands[..b.used], reps) && TargetOk(m, r)
    ensures Follows(b, reps, out, r, RelocateRecord(m, r))
  {
    var q := Target(r.head);
    RelocatedTarget(m, r);
    if Copied(reps, q) { CopiedMoves(b, reps, out, q); } else { DeclaredMoves(b, reps, out, q); }
  }

  lemma BlockMeaning(b: Batch, reps: seq<Replacement>, out: Batch, m: seq<Option<int>>, x: Block)
    requires Rebuilt(b, reps, out) && m == PositionMap(b.commands[..b.used], reps) && BlockOk(m, b.used, x)
    ensures BlockFollows(b, reps, out, x, RelocateBlock(m, b.used, out.used, x))
  {
    if x.Relocs? {
      forall j | 0 <= j < |x.records|
        ensures TargetOk(m, x.records[j]) && Follows(b, reps, out, x.records[j], RelocateRecord(m, x.records[j]))
      {
        assert x.records[j] in x.records;
        RelocationFollows(b, reps, out, m, x.records[j]);
      }
    }
  }

  lemma ResultParts(b: Batch, reps: seq<Replacement>)
    requires Accepts(b, reps)
    ensures var out, m := Result(b, reps).value, PositionMap(b.commands[..b.used], reps);
            Rebuilt(b, reps, out) && Parse(b.sideband).value.Valid() &&
            (forall x <- Parse(b.sideband).value.blocks :: BlockOk(m, b.used, x)) &&
            Parse(out.sideband) == Some(RelocateTable(m, b.used, out.used, Parse(b.sideband).value))
  {
    var out, m, t := Result(b, reps).value, PositionMap(b.commands[..b.used], reps), Parse(b.sideband).value;
    FramingIsGrammar(b.sideband);
    RelocateValid(m, b.used, out.used, t);
    ParseEncode(RelocateTable(m, b.used, out.used, t));
    CutAppend(Body(b.commands[..b.used], reps, 0), Zeros(|b.commands| - out.used), out.used);
  }

  /** An accepted rewrite changes the sideband only in target fields and in the used-size word,
      and every relocation follows its word. */
  lemma RelocationMeaning(b: Batch, reps: seq<Replacement>)
    requires Accepts(b, reps)
    ensures Parse(b.sideband).Some? && Parse(Result(b, reps).value.sideband).Some?
    ensures var t, t' := Parse(b.sideband).value, Parse(Result(b, reps).value.sideband).value;
            t'.header == t.header && t'.end == t.end && |t'.blocks| == |t.blocks| &&
            forall i :: 0 <= i < |t.blocks| ==> BlockFollows(b, reps, Result(b, reps).value, t.blocks[i], t'.blocks[i])
  {
    ResultParts(b, reps);
    var out, m, t := Result(b, reps).value, PositionMap(b.commands[..b.used], reps), Parse(b.sideband).value;
    forall i | 0 <= i < |t.blocks|
      ensures BlockOk(m, b.used, t.blocks[i])
      ensures BlockFollows(b, reps, out, t.blocks[i], RelocateBlock(m, b.used, out.used, t.blocks[i]))
    {
      assert t.blocks[i] in t.blocks;
      BlockMeaning(b, reps, out, m, t.blocks[i]);
    }
  }

  lemma SameBlock(c: seq<word>, m: seq<Option<int>>, used: word, x: Block)
    requires m == PositionMap(c, []) && BlockOk(m, used, x)
    ensures RelocateBlock(m, used, used, x) == x
  {
    if x.Relocs? {
      forall j | 0 <= j < |x.records|
        ensures TargetOk(m, x.records[j]) && RelocateRecord(m, x.records[j]) == x.records[j]
      {
        assert x.records[j] in x.records;
        RetargetSelf(x.records[j].head);
      }
      assert RelocateRecords(m, x.records) == x.records;
    }
  }

  lemma SameTable(c: seq<word>, m: seq<Option<int>>, used: word, t: Table)
    requires m == PositionMap(c, []) && forall x <- t.blocks :: BlockOk(m, used, x)
    ensures RelocateTable(m, used, used, t) == t
  {
    forall i | 0 <= i < |t.blocks|
      ensures BlockOk(m, used, t.blocks[i]) && RelocateBlock(m, used, used, t.blocks[i]) == t.blocks[i]
    {
      assert t.blocks[i] in t.blocks;
      SameBlock(c, m, used, t.blocks[i]);
    }
    assert RelocateBlocks(m, used, used, t.blocks) == t.blocks;
  }

  lemma ZerosBack(s: seq<word>, n: nat)
    requires n <= |s| && AllZero(s[n..])
    ensures s[..n] + Zeros(|s| - n) == s
  {
    forall i | n <= i < |s| ensures s[i] == 0 { assert s[n..][i - n] == 0; }
  }

  lemma SidebandBack(b: Batch)
    requires Accepts(b, [])
    ensures Parse(b.sideband).value.Valid() && Encode(Parse(b.sideband).value) == b.sideband
    ensures var m, t := PositionMap(b.commands[..b.used], []), Parse(b.sideband).value;
            (forall x <- t.blocks :: BlockOk(m, b.used, x)) && RelocateTable(m, b.used, b.used, t) == t
  {
    FramingIsGrammar(b.sideband);
    SameTable(b.commands[..b.used], PositionMap(b.commands[..b.used], []), b.used, Parse(b.sideband).value);
  }

  lemma ResultIs(b: Batch, reps: seq<Replacement>, body: seq<word>, t: Table)
    requires Accepts(b, reps) && body == Body(b.commands[..b.used], reps, 0) && |body| < 0x1_0000_0000 && t.Valid()
    requires t == RelocateTable(PositionMap(b.commands[..b.used], reps), b.used, |body|, Parse(b.sideband).value)
    ensures Result(b, reps) == Some(Batch(body + Zeros(|b.commands| - |body|), Encode(t), |body|))
  {
  }

  /** Rewriting with no replacements changes nothing. */
  lemma Identity(b: Batch)
    requires Accepts(b, [])
    ensures Result(b, []) == Some(b)
  {
    var c := b.commands[..b.used];
    assert Body(c, [], 0) == c;
    ZerosBack(b.commands, b.used);
    SidebandBack(b);
    ResultIs(b, [], c, Parse(b.sideband).value);
  }
}
