/** The relocation sideband: a four-word header, a list of blocks, and a terminal token.
    `Encode` is the reference grammar; `Parse` is the walk of the executor
    (hevc_recovery.cpp), and `RewriterAccepts` the rewriter's test of a block's body (video_batch_rewrite.cpp). */
module Sideband {
  import opened Words
  import opened Seqs

  const RELOCATIONS := 0x8200
  const USED := 0x8000
  const TERMINAL: word := 0x200

  /** One five-word relocation: a head (bit 0 set, operation in bits 1-3, target in bits 5-24),
      a pair of 16-bit handles, and three words nobody here interprets. */
  datatype Record = Record(head: word, handles: word, w2: word, w3: word, w4: word) {
    predicate Valid() { head % 2 == 1 }
    function Words(): seq<word> { [head, handles, w2, w3, w4] }
    function Operation(): nat { head / 2 % 8 }
  }

  datatype Block =
    | Relocs(base: word, base2: word, records: seq<Record>, slack: nat)
    | Plain(kind: nat, payload: seq<word>)
  {
    predicate Valid() {
      match this
      case Relocs(_, _, records, slack) =>
        3 + 5 * |records| + slack < 0x1_0000 && forall r <- records :: r.Valid()
      case Plain(kind, payload) =>
        kind < 0x1_0000 && kind != RELOCATIONS && 1 <= |payload| < 0xffff
    }

    function Size(): nat {
      match this
      case Relocs(_, _, records, slack) => 3 + 5 * |records| + slack
      case Plain(_, payload) => 1 + |payload|
    }
  }

  datatype Table = Table(header: seq<word>, blocks: seq<Block>, end: word) {
    predicate Valid() {
      |header| == 4 && forall b <- blocks :: b.Valid()
    }
  }

  function EncodeRecords(rs: seq<Record>): (s: seq<word>)
    ensures |s| == 5 * |rs|
  {
    if rs == [] then [] else rs[0].Words() + EncodeRecords(rs[1..])
  }

  function EncodeBlock(b: Block): (s: seq<word>)
    requires b.Valid()
    ensures |s| == b.Size() >= 2
    ensures s[0] / 0x1_0000 == b.Size() && s[0] != TERMINAL
    ensures s[0] % 0x1_0000 == (if b.Relocs? then RELOCATIONS else b.kind)
  {
    match b
    case Relocs(base, base2, records, slack) =>
      [b.Size() * 0x1_0000 + RELOCATIONS, base, base2] + EncodeRecords(records) + Zeros(slack)
    case Plain(kind, payload) =>
      [b.Size() * 0x1_0000 + kind] + payload
  }

  function EncodeBlocks(bs: seq<Block>): seq<word>
    requires forall b <- bs :: b.Valid()
  {
    if bs == [] then [] else EncodeBlock(bs[0]) + EncodeBlocks(bs[1..])
  }

  function Encode(t: Table): seq<word>
    requires t.Valid()
  {
    t.header + EncodeBlocks(t.blocks) + [TERMINAL, t.end]
  }

  // ---- the executor's walk ----

  /** The inner loop over a relocation block's body: records while the next word is non-zero,
      then nothing but zeros. */
  function ParseRecords(s: seq<word>): Option<(seq<Record>, nat)> {
    if s == [] then Some(([], 0))
    else if s[0] == 0 then (if AllZero(s) then Some(([], |s|)) else None)
    else if |s| < 5 || s[0] % 2 != 1 then None
    else
      match ParseRecords(s[5..])
      case None => None
      case Some((rs, slack)) => Some(([Record(s[0], s[1], s[2], s[3], s[4])] + rs, slack))
  }

  function ParseBlock(s: seq<word>): Option<Block>
    requires 2 <= |s| < 0x1_0000 && s[0] / 0x1_0000 == |s|
  {
    if s[0] % 0x1_0000 == RELOCATIONS then
      if |s| < 3 then None
      else
        match ParseRecords(s[3..])
        case None => None
        case Some((rs, slack)) => Some(Relocs(s[1], s[2], rs, slack))
    else Some(Plain(s[0] % 0x1_0000, s[1..]))
  }

  /** The outer loop, from a suffix that starts at a token. */
  function ParseBlocks(s: seq<word>): Option<(seq<Block>, word)>
    decreases |s|
  {
    if s == [] then None
    else if s[0] == TERMINAL then (if |s| == 2 then Some(([], s[1])) else None)
    else
      var n := s[0] / 0x1_0000;
      if n < 2 || n > |s| then None
      else
        match ParseBlock(s[..n])
        case None => None
        case Some(b) =>
          match ParseBlocks(s[n..])
          case None => None
          case Some((bs, end)) => Some(([b] + bs, end))
  }

  function Parse(s: seq<word>): Option<Table> {
    if |s| < 6 then None
    else
      match ParseBlocks(s[4..])
      case None => None
      case Some((bs, end)) => Some(Table(s[..4], bs, end))
  }

  // ---- Parse inverts Encode ----

  lemma {:induction false} ParseEncodeRecords(rs: seq<Record>, slack: nat)
    requires forall r <- rs :: r.Valid()
    ensures ParseRecords(EncodeRecords(rs) + Zeros(slack)) == Some((rs, slack))
  {
    var s := EncodeRecords(rs) + Zeros(slack);
    if rs != [] {
      ParseEncodeRecords(rs[1..], slack);
      assert s[5..] == EncodeRecords(rs[1..]) + Zeros(slack);
      assert s[..5] == rs[0].Words();
      assert s[0] == rs[0].head && s[1] == rs[0].handles && s[2] == rs[0].w2 && s[3] == rs[0].w3 && s[4] == rs[0].w4;
      assert rs[0].Valid() && s[0] % 2 == 1;
      assert Record(s[0], s[1], s[2], s[3], s[4]) == rs[0];
      assert [rs[0]] + rs[1..] == rs;
    } else {
      assert s == Zeros(slack);
    }
  }

  lemma ParseEncodeBlock(b: Block)
    requires b.Valid()
    ensures ParseBlock(EncodeBlock(b)) == Some(b)
  {
    var s := EncodeBlock(b);
    match b
    case Relocs(base, base2, records, slack) =>
      assert s[3..] == EncodeRecords(records) + Zeros(slack);
      ParseEncodeRecords(records, slack);
    case Plain(kind, payload) =>
      assert s[1..] == payload;
  }

  lemma {:induction false} ParseEncodeBlocks(bs: seq<Block>, end: word)
    requires forall b <- bs :: b.Valid()
    ensures ParseBlocks(EncodeBlocks(bs) + [TERMINAL, end]) == Some((bs, end))
  {
    var s := EncodeBlocks(bs) + [TERMINAL, end];
    if bs != [] {
      ParseEncodeBlocks(bs[1..], end);
      ParseEncodeBlock(bs[0]);
      var head, tail := EncodeBlock(bs[0]), EncodeBlocks(bs[1..]) + [TERMINAL, end];
      Assoc(head, EncodeBlocks(bs[1..]), [TERMINAL, end]);
      CutAppend(head, tail, |head|);
      assert s == head + tail;
      assert [bs[0]] + bs[1..] == bs;
    } else {
      assert s == [TERMINAL, end];
    }
  }

  /** Every table the grammar can write is walked by the executor with the same record
      boundaries: parsing gives back the very same blocks and records. */
  lemma ParseEncode(t: Table)
    requires t.Valid()
    ensures Parse(Encode(t)) == Some(t)
  {
    var s := Encode(t);
    ParseEncodeBlocks(t.blocks, t.end);
    Assoc(t.header, EncodeBlocks(t.blocks), [TERMINAL, t.end]);
    CutAppend(t.header, EncodeBlocks(t.blocks) + [TERMINAL, t.end], 4);
  }

  /** The tokens: a block starts with its size in the high half of a word and its kind in the low half,
      0x8200 for relocations and only for them; the table ends in the word 0x200 and its end word. */
  lemma TokensOnWords(t: Table, i: nat)
    requires t.Valid() && i < |t.blocks|
    ensures Encode(t)[..4] == t.header && Encode(t)[|Encode(t)| - 2..] == [0x200, t.end]
    ensures var (b, s) := (t.blocks[i], EncodeBlock(t.blocks[i]));
            s[0] / 0x1_0000 == |s| && (s[0] % 0x1_0000 == 0x8200 <==> b.Relocs?) &&
            (b.Plain? ==> s[0] % 0x1_0000 == b.kind && s[1..] == b.payload) &&
            (b.Relocs? ==> s[1] == b.base && s[2] == b.base2 && |s| == 3 + 5 * |b.records| + b.slack)
  {
    assert t.blocks[i] in t.blocks && t.blocks[i].Valid();
    var s := Encode(t);
    assert s == t.header + (EncodeBlocks(t.blocks) + [TERMINAL, t.end]);
    assert s[|s| - 2..] == [TERMINAL, t.end];
  }

  // ---- Encode inverts Parse ----

  lemma {:induction false} EncodeParseRecords(s: seq<word>)
    requires ParseRecords(s).Some?
    ensures var (rs, slack) := ParseRecords(s).value;
            (forall r <- rs :: r.Valid()) && EncodeRecords(rs) + Zeros(slack) == s
  {
    var (rs, slack) := ParseRecords(s).value;
    if s == [] || s[0] == 0 {
      assert EncodeRecords(rs) + Zeros(slack) == s;
    } else {
      EncodeParseRecords(s[5..]);
      var (rest, z) := ParseRecords(s[5..]).value;
      assert rs[1..] == rest;
      assert rs[0].Words() == s[..5];
      Assoc(s[..5], EncodeRecords(rest), Zeros(slack));
      assert s == s[..5] + s[5..];
    }
  }

  lemma EncodeParseBlock(s: seq<word>)
    requires 2 <= |s| < 0x1_0000 && s[0] / 0x1_0000 == |s|
    requires ParseBlock(s).Some?
    ensures var b := ParseBlock(s).value; b.Valid() && EncodeBlock(b) == s
  {
    var b := ParseBlock(s).value;
    if s[0] % 0x1_0000 == RELOCATIONS {
      EncodeParseRecords(s[3..]);
      assert EncodeBlock(b) == s[..3] + (EncodeRecords(b.records) + Zeros(b.slack));
    }
  }

  lemma EncodeBlocksCons(b: Block, bs: seq<Block>, tail: seq<word>)
    requires b.Valid() && forall x <- bs :: x.Valid()
    ensures forall x <- [b] + bs :: x.Valid()
    ensures EncodeBlocks([b] + bs) + tail == EncodeBlock(b) + (EncodeBlocks(bs) + tail)
  {
    var all := [b] + bs;
    assert all[0] == b && all[1..] == bs;
  }

  lemma {:induction false} EncodeParseBlocks(s: seq<word>)
    requires ParseBlocks(s).Some?
    ensures forall b <- ParseBlocks(s).value.0 :: b.Valid()
    ensures EncodeBlocks(ParseBlocks(s).value.0) + [TERMINAL, ParseBlocks(s).value.1] == s
    decreases |s|
  {
    if s[0] == TERMINAL {
      assert s == [TERMINAL, s[1]];
    } else {
      var n := s[0] / 0x1_0000;
      var (rest, end) := ParseBlocks(s[n..]).value;
      EncodeParseBlock(s[..n]);
      EncodeParseBlocks(s[n..]);
      EncodeBlocksCons(ParseBlock(s[..n]).value, rest, [TERMINAL, end]);
      assert s == s[..n] + s[n..];
    }
  }

  /** The executor's framing check accepts exactly the encodings of valid tables. */
  lemma FramingIsGrammar(s: seq<word>)
    ensures Parse(s).Some? <==> exists t: Table :: t.Valid() && Encode(t) == s
    ensures Parse(s).Some? ==> Parse(s).value.Valid() && Encode(Parse(s).value) == s
  {
    if Parse(s).Some? {
      EncodeParseBlocks(s[4..]);
      var t := Parse(s).value;
      assert Encode(t) == s[..4] + (EncodeBlocks(t.blocks) + [TERMINAL, t.end]);
      assert t.Valid() && Encode(t) == s;
    }
    forall t: Table | t.Valid() && Encode(t) == s
      ensures Parse(s).Some?
    {
      ParseEncode(t);
    }
  }

  // ---- the rewriter's walk of one relocation body ----

  /** The rewriter tests for an all-zero remainder before every record, instead of testing the
      next word first. */
  predicate RewriterAccepts(s: seq<word>) {
    s == [] || AllZero(s) || (|s| >= 5 && s[0] % 2 == 1 && RewriterAccepts(s[5..]))
  }

  /** Both inner loops accept the same relocation bodies. */
  lemma {:induction false} WalksAgree(s: seq<word>)
    ensures RewriterAccepts(s) <==> ParseRecords(s).Some?
  {
    if s != [] && s[0] != 0 && |s| >= 5 {
      WalksAgree(s[5..]);
    }
  }

  // ---- concatenation ----

  lemma EncodeRecordsCons(r: Record, rs: seq<Record>, tail: seq<word>)
    ensures EncodeRecords([r] + rs) + tail == r.Words() + (EncodeRecords(rs) + tail)
  {
    ConsParts(r, rs);
    Assoc(r.Words(), EncodeRecords(rs), tail);
  }

  lemma {:induction false} EncodeRecordsAppend(a: seq<Record>, b: seq<Record>)
    ensures EncodeRecords(a + b) == EncodeRecords(a) + EncodeRecords(b)
  {
    if a == [] {
      assert a + b == b;
    } else {
      var first, rest := a[0], a[1..];
      Uncons(a);
      Assoc([first], rest, b);
      EncodeRecordsAppend(rest, b);
      EncodeRecordsCons(first, rest, EncodeRecords(b));
      EncodeRecordsCons(first, rest + b, []);
      assert EncodeRecords(a + b) + [] == EncodeRecords(a + b) &&
             EncodeRecords(rest + b) + [] == EncodeRecords(rest + b);
    }
  }

  // ---- walking and editing a table in place ----

  function RecordAt(s: seq<word>, r: nat): Record
    requires r + 5 <= |s|
  {
    Record(s[r], s[r + 1], s[r + 2], s[r + 3], s[r + 4])
  }

  lemma EncodeRecordsSnoc(rs: seq<Record>, r: Record)
    ensures EncodeRecords(rs + [r]) == EncodeRecords(rs) + r.Words()
  {
    EncodeRecordsAppend(rs, [r]);
    assert EncodeRecords([r]) == r.Words() + EncodeRecords([]);
  }
}
