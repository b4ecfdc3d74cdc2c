/** What a rewritten command stream decodes to.
    The argument is the same for any way of reading a packet's size from its header, so it is made
    for an arbitrary `len`; the last lemma is about the source's `length`. */
module PacketStream {
  import opened Words
  import opened Seqs
  import opened Sideband
  import opened Rewrite

  type Lengths = word -> nat

  /** `c` is cut exactly into packets by `len`. */
  predicate Decodes(len: Lengths, c: seq<word>) {
    c == [] || (0 < len(c[0]) <= |c| && Decodes(len, c[len(c[0])..]))
  }

  function Packets(len: Lengths, c: seq<word>): seq<seq<word>>
    requires Decodes(len, c)
  {
    if c == [] then [] else [c[..len(c[0])]] + Packets(len, c[len(c[0])..])
  }

  function Cut(len: Lengths, c: seq<word>): seq<seq<word>> {
    if Decodes(len, c) then Packets(len, c) else []
  }

  /** The packets `ps`, the first at old position `at`, with each replaced one turned into the
      packets of its prolog and its new packet. */
  function Translated(len: Lengths, ps: seq<seq<word>>, at: nat, reps: seq<Replacement>): seq<seq<word>> {
    if ps == [] then []
    else if reps != [] && reps[0].at == at then
      Cut(len, reps[0].before) + ([reps[0].words] + Translated(len, ps[1..], at + |ps[0]|, reps[1..]))
    else [ps[0]] + Translated(len, ps[1..], at + |ps[0]|, reps)
  }

  /** A packet of `s` starts d words on. */
  predicate Starts(len: Lengths, s: seq<word>, d: int) {
    s != [] && (d == 0 || (0 < len(s[0]) <= |s| && len(s[0]) <= d && Starts(len, s[len(s[0])..], d - len(s[0]))))
  }

  /** How `len` reads a replacement's prolog, old header and new packet: either both packets are
      as long as the replacement says, or neither header tells the length of its packet. */
  predicate Readable(len: Lengths, header: word, r: Replacement) {
    Decodes(len, r.before) && r.words != [] && 0 < len(r.words[0]) &&
    (len(header) == r.size <==> len(r.words[0]) == |r.words|)
  }

  /** Every replaced packet is as long as its replacement says. */
  predicate Whole(len: Lengths, c: seq<word>, reps: seq<Replacement>) {
    reps == [] || ((reps[0].at < |c| ==> len(c[reps[0].at]) == reps[0].size) && Whole(len, c, reps[1..]))
  }

  /** Every replacement still to come is at a packet of `s`, the old words from `pos` on, and readable. */
  predicate Due(len: Lengths, c: seq<word>, s: seq<word>, reps: seq<Replacement>, pos: nat) {
    reps == [] ||
    (reps[0].at < |c| && Starts(len, s, reps[0].at - pos) && Readable(len, c[reps[0].at], reps[0]) &&
     Due(len, c, s, reps[1..], pos))
  }

  lemma {:induction false} PacketsAppend(len: Lengths, a: seq<word>, b: seq<word>)
    requires Decodes(len, a)
    ensures Decodes(len, a + b) <==> Decodes(len, b)
    ensures Decodes(len, b) ==> Packets(len, a + b) == Packets(len, a) + Packets(len, b)
  {
    if a == [] {
      assert a + b == b;
    } else {
      var n := len(a[0]);
      CutAppend(a, b, n);
      PacketsAppend(len, a[n..], b);
      if Decodes(len, b) { Assoc([a[..n]], Packets(len, a[n..]), Packets(len, b)); }
    }
  }

  lemma OnePacket(len: Lengths, p: seq<word>)
    requires p != [] && len(p[0]) == |p|
    ensures Decodes(len, p) && Packets(len, p) == [p]
  {
    assert p[..|p|] == p && p[|p|..] == [];
  }

  /** These words decode to these packets. */
  predicate Reads(len: Lengths, body: seq<word>, packets: seq<seq<word>>) {
    Decodes(len, body) && Packets(len, body) == packets
  }

  /** The rebuilt words of `s` decode to the translated packets. */
  predicate Streams(len: Lengths, s: seq<word>, reps: seq<Replacement>, pos: nat) {
    Ordered(pos + |s|, reps, pos) && Decodes(len, s) &&
    Reads(len, Body(s, reps, pos), Translated(len, Packets(len, s), pos, reps))
  }

  /** `s` is the old words `c` from `pos` on, a packet boundary, and `reps` are the replacements
      still to come. */
  predicate Ready(len: Lengths, c: seq<word>, s: seq<word>, reps: seq<Replacement>, pos: nat) {
    pos <= |c| && s == c[pos..] && Decodes(len, s) && Ordered(|c|, reps, pos) && Due(len, c, s, reps, pos)
  }

  /** The rebuilt words decode to the translated packets exactly when every replaced packet is as
      long as its replacement says. */
  lemma {:induction false} StreamFrom(len: Lengths, c: seq<word>, s: seq<word>, reps: seq<Replacement>, pos: nat)
    requires Ready(len, c, s, reps, pos)
    ensures Streams(len, s, reps, pos) <==> Whole(len, c, reps)
    decreases |s|
  {
    if s == [] {
      StreamEnds(len, c, reps, pos);
    } else if reps == [] || reps[0].at != pos {
      var rest, at := StepCopied(len, c, s, reps, pos);
      StreamFrom(len, c, rest, reps, at);
    } else if len(s[0]) == reps[0].size {
      var rest, later, at := StepReplaced(len, c, s, reps, pos);
      StreamFrom(len, c, rest, later, at);
    } else {
      StepOther(len, c, s, reps, pos);
    }
  }

  lemma StreamEnds(len: Lengths, c: seq<word>, reps: seq<Replacement>, pos: nat)
    requires Ready(len, c, [], reps, pos)
    ensures Streams(len, [], reps, pos) && Whole(len, c, reps)
  {
    assert reps == [];
  }

  lemma StepCopied(len: Lengths, c: seq<word>, s: seq<word>, reps: seq<Replacement>, pos: nat)
    returns (rest: seq<word>, at: nat)
    requires Ready(len, c, s, reps, pos) && s != [] && (reps == [] || reps[0].at != pos)
    ensures |rest| < |s| && Ready(len, c, rest, reps, at)
    ensures Streams(len, s, reps, pos) <==> Streams(len, rest, reps, at)
  {
    ReadyLater(len, c, s, reps, pos);
    StreamSkip(len, s, reps, pos);
    rest, at := s[len(s[0])..], pos + len(s[0]);
  }

  lemma ReadyLater(len: Lengths, c: seq<word>, s: seq<word>, reps: seq<Replacement>, pos: nat)
    requires Ready(len, c, s, reps, pos) && s != [] && (reps == [] || reps[0].at != pos)
    ensures 0 < len(s[0]) <= |s| && (reps != [] ==> pos + len(s[0]) <= reps[0].at)
    ensures Ready(len, c, s[len(s[0])..], reps, pos + len(s[0]))
  {
    CutDrop(c, pos, len(s[0]));
    DueLater(len, c, s, reps, pos, pos + len(s[0]));
  }

  lemma StepReplaced(len: Lengths, c: seq<word>, s: seq<word>, reps: seq<Replacement>, pos: nat)
    returns (rest: seq<word>, later: seq<Replacement>, at: nat)
    requires Ready(len, c, s, reps, pos) && s != [] && reps != [] && reps[0].at == pos && len(s[0]) == reps[0].size
    ensures |rest| < |s| && Ready(len, c, rest, later, at)
    ensures Whole(len, c, reps) <==> Whole(len, c, later)
    ensures Streams(len, s, reps, pos) <==> Streams(len, rest, later, at)
  {
    ReadyAfter(len, c, s, reps, pos);
    var n := len(s[0]);
    rest, later, at := s[n..], reps[1..], pos + n;
    StreamAtPacket(len, s, reps, pos, n, at);
  }

  lemma ReadyAfter(len: Lengths, c: seq<word>, s: seq<word>, reps: seq<Replacement>, pos: nat)
    requires Ready(len, c, s, reps, pos) && s != [] && reps != [] && reps[0].at == pos && len(s[0]) == reps[0].size
    ensures 0 < len(s[0]) <= |s| && s[0] == c[reps[0].at] && Readable(len, s[0], reps[0])
    ensures Ready(len, c, s[len(s[0])..], reps[1..], pos + len(s[0]))
  {
    CutDrop(c, pos, len(s[0]));
    DueLater(len, c, s, reps[1..], pos, pos + len(s[0]));
  }

  lemma StepOther(len: Lengths, c: seq<word>, s: seq<word>, reps: seq<Replacement>, pos: nat)
    requires Ready(len, c, s, reps, pos) && s != [] && reps != [] && reps[0].at == pos && len(s[0]) != reps[0].size
    ensures !Streams(len, s, reps, pos) && !Whole(len, c, reps)
  {
    StreamAtOther(len, s, reps, pos);
  }

  /** What is due past the first packet of `s` is due in the rest of it. */
  lemma {:induction false} DueLater(len: Lengths, c: seq<word>, s: seq<word>, reps: seq<Replacement>, pos: nat,
                                    low: nat)
    requires s != [] && 0 < len(s[0]) <= |s| && Due(len, c, s, reps, pos)
    requires Ordered(|c|, reps, low) && pos + len(s[0]) <= low
    ensures Due(len, c, s[len(s[0])..], reps, pos + len(s[0]))
  {
    if reps != [] { DueLater(len, c, s, reps[1..], pos, End(reps[0])); }
  }

  /** A packet nothing replaces is copied in front of the rest. */
  lemma BodySkip(s: seq<word>, reps: seq<Replacement>, pos: nat, n: nat)
    requires Ordered(pos + |s|, reps, pos) && n <= |s|
    requires reps != [] ==> pos + n <= reps[0].at
    ensures Ordered(pos + |s|, reps, pos + n)
    ensures Body(s, reps, pos) == s[..n] + Body(s[n..], reps, pos + n)
  {
    if reps != [] {
      var r, t := reps[0], s[n..];
      var k, e := r.at - pos, End(r) - pos;
      var later := Body(s[e..], reps[1..], End(r));
      BodyUnfolds(s, reps, pos, k, e);
      SkipLead(s, n, k, e, r.before + (r.words + later));
      BodyUnfolds(t, reps, pos + n, k - n, e - n);
    }
  }

  lemma BodyUnfolds(s: seq<word>, reps: seq<Replacement>, pos: nat, k: nat, e: nat)
    requires Ordered(pos + |s|, reps, pos) && reps != [] && k == reps[0].at - pos && e == End(reps[0]) - pos
    ensures k <= e <= |s| && Ordered(End(reps[0]) + |s[e..]|, reps[1..], End(reps[0]))
    ensures Body(s, reps, pos)
            == s[..k] + (reps[0].before + (reps[0].words + Body(s[e..], reps[1..], End(reps[0]))))
  {
  }

  lemma SkipLead(s: seq<word>, n: nat, k: nat, e: nat, tail: seq<word>)
    requires n <= k <= e <= |s|
    ensures s[..k] + tail == s[..n] + (s[n..][..k - n] + tail) && s[n..][e - n..] == s[e..]
  {
    CutDrop(s, n, e - n);
    SplitPrepend(s, 0, n, k, tail);
    assert s[n..][..k - n] == s[n..k];
  }

  lemma StreamSkip(len: Lengths, s: seq<word>, reps: seq<Replacement>, pos: nat)
    requires s != [] && Decodes(len, s) && Ordered(pos + |s|, reps, pos)
    requires reps != [] ==> pos + len(s[0]) <= reps[0].at
    ensures Ordered(pos + |s|, reps, pos + len(s[0]))
    ensures Streams(len, s, reps, pos) <==> Streams(len, s[len(s[0])..], reps, pos + len(s[0]))
  {
    var n := len(s[0]);
    BodySkip(s, reps, pos, n);
    TranslatedSkip(len, Packets(len, s), pos, reps, s[..n], Body(s[n..], reps, pos + n));
    ConsParts(s[..n], Packets(len, s[n..]));
  }

  /** One copied packet at the front, over any words and packets that fit together. */
  lemma TranslatedSkip(len: Lengths, ps: seq<seq<word>>, at: nat, reps: seq<Replacement>, packet: seq<word>,
      tail: seq<word>)
    requires ps != [] && (reps != [] ==> reps[0].at != at)
    requires packet == ps[0] != [] && len(packet[0]) == |packet|
    ensures Reads(len, packet + tail, Translated(len, ps, at, reps)) <==>
            Reads(len, tail, Translated(len, ps[1..], at + |packet|, reps))
  {
    OnePacket(len, packet);
    PacketsAppend(len, packet, tail);
    if Decodes(len, tail) { SameTail([packet], Packets(len, tail), Translated(len, ps[1..], at + |packet|, reps)); }
  }

  /** One replaced packet at the front, over any words and packets that fit together. */
  lemma TranslatedHere(len: Lengths, first: seq<word>, later: seq<seq<word>>, at: nat, at': nat,
      reps: seq<Replacement>, tail: seq<word>)
    requires reps != [] && reps[0].at == at && at' == at + |first|
    requires var r := reps[0]; Decodes(len, r.before) && r.words != [] && len(r.words[0]) == |r.words|
    ensures var body := reps[0].before + (reps[0].words + tail);
            Reads(len, body, Translated(len, [first] + later, at, reps)) <==>
                Reads(len, tail, Translated(len, later, at', reps[1..]))
  {
    var r, want := reps[0], Translated(len, later, at', reps[1..]);
    ConsParts(first, later);
    OnePacket(len, r.words);
    PacketsAppend(len, r.words, tail);
    PacketsAppend(len, r.before, r.words + tail);
    if Decodes(len, tail) {
      SameTail([r.words], Packets(len, tail), want);
      SameTail(Cut(len, r.before), [r.words] + Packets(len, tail), [r.words] + want);
    }
  }

  lemma BodyHere(s: seq<word>, reps: seq<Replacement>, pos: nat, n: nat, pos': nat)
    requires Ordered(pos + |s|, reps, pos) && reps != [] && reps[0].at == pos && n == reps[0].size && pos' == pos + n
    ensures n <= |s| && Ordered(pos' + |s[n..]|, reps[1..], pos')
    ensures Body(s, reps, pos) == reps[0].before + (reps[0].words + Body(s[n..], reps[1..], pos'))
  {
    assert s[..0] == [];
  }

  lemma StreamAtPacket(len: Lengths, s: seq<word>, reps: seq<Replacement>, pos: nat, n: nat, pos': nat)
    requires s != [] && Decodes(len, s) && Ordered(pos + |s|, reps, pos) && reps != [] && reps[0].at == pos
    requires Readable(len, s[0], reps[0]) && n == len(s[0]) == reps[0].size && pos' == pos + n
    ensures n <= |s| && (Streams(len, s, reps, pos) <==> Streams(len, s[n..], reps[1..], pos'))
  {
    BodyHere(s, reps, pos, n, pos');
    TranslatedHere(len, s[..n], Packets(len, s[n..]), pos, pos', reps, Body(s[n..], reps[1..], pos'));
  }

  /** A new packet that `len` reads at another length is not seen as one packet. */
  lemma TranslatedOther(len: Lengths, ps: seq<seq<word>>, at: nat, reps: seq<Replacement>, tail: seq<word>)
    requires ps != [] && reps != [] && reps[0].at == at
    requires var r := reps[0]; Decodes(len, r.before) && r.words != [] && len(r.words[0]) != |r.words|
    ensures var body := reps[0].before + (reps[0].words + tail);
            !Reads(len, body, Translated(len, ps, at, reps))
  {
    var r, rest := reps[0], Translated(len, ps[1..], at + |ps[0]|, reps[1..]);
    PacketsAppend(len, r.before, r.words + tail);
    if Decodes(len, r.words + tail) {
      assert (r.words + tail)[0] == r.words[0];
      assert Packets(len, r.words + tail)[0] != ([r.words] + rest)[0];
      SameTail(Cut(len, r.before), Packets(len, r.words + tail), [r.words] + rest);
    }
  }

  lemma StreamAtOther(len: Lengths, s: seq<word>, reps: seq<Replacement>, pos: nat)
    requires s != [] && Decodes(len, s) && Ordered(pos + |s|, reps, pos) && reps != [] && reps[0].at == pos
    requires Readable(len, s[0], reps[0]) && len(s[0]) != reps[0].size
    ensures !Streams(len, s, reps, pos)
  {
    BodyHere(s, reps, pos, reps[0].size, End(reps[0]));
    TranslatedOther(len, Packets(len, s), pos, reps, Body(s[reps[0].size..], reps[1..], End(reps[0])));
  }

  // ---- the source's packet lengths ----

  lemma {:induction false} WalkDecodes(s: seq<word>)
    requires WalkOk(s)
    ensures Decodes(Length, s)
  {
    if s != [] { WalkDecodes(s[AuditedLength(s[0])..]); }
  }

  lemma {:induction false} WalkStarts(s: seq<word>, d: int)
    requires WalkOk(s) && IsStart(s, d)
    ensures Starts(Length, s, d)
  {
    if d != 0 {
      var n := AuditedLength(s[0]);
      assert n == Length(s[0]);
      WalkStarts(s[n..], d - n);
    }
  }

  /** The audited prologs decode: the initialisation into four packets, the others into one. */
  lemma PrologPackets(header: word, before: seq<word>)
    requires BeforeOk(header, before)
    ensures Decodes(Length, before)
    ensures Packets(Length, before) ==
              if before == INIT then [[0x1d000000, 0x03000300], [0x708b0000, 1], [0x738a0001, 1, 0], [0x68000100]]
              else if before == [] then []
              else [before]
  {
    if before == INIT {
      InitPackets();
    } else if before != [] {
      OnePacket(Length, before);
    }
  }

  lemma FirstPacket(len: Lengths, p: seq<word>, rest: seq<word>)
    requires p != [] && len(p[0]) == |p| && Decodes(len, rest)
    ensures Decodes(len, p + rest) && Packets(len, p + rest) == [p] + Packets(len, rest)
  {
    OnePacket(len, p);
    PacketsAppend(len, p, rest);
  }

  lemma InitPackets()
    ensures Decodes(Length, INIT)
    ensures Packets(Length, INIT)
            == [[0x1d000000, 0x03000300], [0x708b0000, 1], [0x738a0001, 1, 0], [0x68000100]]
  {
    assert Packets(Length, []) == [];
    FirstPacket(Length, INIT[7..], []);
    assert INIT[7..] + [] == INIT[7..] == [0x68000100];
    FirstPacket(Length, INIT[4..7], INIT[7..]);
    assert INIT[4..7] + INIT[7..] == INIT[4..] && INIT[4..7] == [0x738a0001, 1, 0];
    FirstPacket(Length, INIT[2..4], INIT[4..]);
    assert INIT[2..4] + INIT[4..] == INIT[2..] && INIT[2..4] == [0x708b0000, 1];
    FirstPacket(Length, INIT[..2], INIT[2..]);
    assert INIT[..2] + INIT[2..] == INIT && INIT[..2] == [0x1d000000, 0x03000300];
  }

  lemma MediaLengths(c: seq<word>, r: Replacement)
    requires ReplacementOk(c, r)
    ensures Readable(Length, c[r.at], r)
    ensures Length(c[r.at]) == r.size <==> !IsWait(c[r.at])
  {
    PrologPackets(c[r.at], r.before);
  }

  /** No replacement is aimed at a wait header, 0x6800xxxx. */
  predicate NoWaits(c: seq<word>, reps: seq<Replacement>) {
    forall r <- reps :: r.at < |c| ==> !IsWait(c[r.at])
  }

  lemma {:induction false} ReplacementsDue(c: seq<word>, reps: seq<Replacement>)
    requires WalkOk(c) && forall r <- reps :: ReplacementOk(c, r)
    ensures Due(Length, c, c, reps, 0)
    ensures Whole(Length, c, reps) <==> NoWaits(c, reps)
  {
    if reps != [] {
      var r := reps[0];
      assert forall x :: x in reps <==> x == r || x in reps[1..];
      assert ReplacementOk(c, r);
      WalkStarts(c, r.at);
      MediaLengths(c, r);
      ReplacementsDue(c, reps[1..]);
    }
  }

  /** An accepted rewrite's used words decode, with `Length`, to the input's packets in order with
      each replaced one turned into its prolog and its new packet, and zeros follow; this holds if
      and only if no replacement is aimed at a wait header. */
  lemma RewrittenStream(b: Batch, reps: seq<Replacement>)
    requires Accepts(b, reps)
    ensures Decodes(Length, b.commands[..b.used])
    ensures var out := Result(b, reps).value;
            |out.commands| == |b.commands| && out.used <= |out.commands| && AllZero(out.commands[out.used..])
    ensures var out := Result(b, reps).value;
            Decodes(Length, out.commands[..out.used]) &&
            Packets(Length, out.commands[..out.used])
            == Translated(Length, Packets(Length, b.commands[..b.used]), 0, reps)
            <==> NoWaits(b.commands[..b.used], reps)
  {
    RewrittenWords(b, reps);
    StreamAll(b.commands[..b.used], reps);
  }

  lemma RewrittenWords(b: Batch, reps: seq<Replacement>)
    requires Accepts(b, reps)
    ensures WalkOk(b.commands[..b.used]) && ReplacementsOk(b.commands[..b.used], reps)
    ensures var out := Result(b, reps).value;
            |out.commands| == |b.commands| && out.used <= |out.commands| && AllZero(out.commands[out.used..]) &&
            out.commands[..out.used] == Body(b.commands[..b.used], reps, 0)
  {
    var body := Body(b.commands[..b.used], reps, 0);
    CutAppend(body, Zeros(|b.commands| - |body|), |body|);
  }

  lemma StreamAll(c: seq<word>, reps: seq<Replacement>)
    requires WalkOk(c) && ReplacementsOk(c, reps)
    ensures Decodes(Length, c)
    ensures Reads(Length, Body(c, reps, 0), Translated(Length, Packets(Length, c), 0, reps)) <==> NoWaits(c, reps)
  {
    WalkDecodes(c);
    ReplacementsDue(c, reps);
    assert c == c[0..];
    StreamFrom(Length, c, c, reps, 0);
  }

  const WAITING: seq<word> := [0x6800_0000, 0, BATCH_END]
  const AT_WAIT := Replacement(0, 2, [0x6800_0000, 0], [], [])
  const THREE_WORDS := Table([0, 0, 0, 0], [Plain(USED, [3, 0])], 3)

  lemma WaitAccepted()
    ensures THREE_WORDS.Valid() && Accepts(Batch(WAITING, Encode(THREE_WORDS), 3), [AT_WAIT])
  {
    var b, reps := Batch(WAITING, Encode(THREE_WORDS), 3), [AT_WAIT];
    var c := b.commands[..b.used];
    assert c == WAITING && b.commands[b.used..] == [];
    WaitWalks();
    assert reps[1..] == [] && ReplacementOk(c, AT_WAIT) && Ordered(3, reps, 0);
    assert c[2..] == [BATCH_END] && Body([BATCH_END], [], 2) == [BATCH_END];
    assert |Body(c, reps, 0)| == 3;
    ParseEncode(THREE_WORDS);
    WaitTable(PositionMap(c, reps));
  }

  lemma WaitWalks()
    ensures WalkOk(WAITING)
  {
    assert WAITING[1..] == [0, BATCH_END] && WAITING[1..][1..] == [BATCH_END] && WAITING[1..][1..][1..] == [];
    assert WalkOk([]) && WalkOk([BATCH_END]) && WalkOk([0, BATCH_END]);
  }

  lemma WaitTable(m: seq<Option<int>>)
    ensures TableOk(m, 3, 3, THREE_WORDS) && |Encode(THREE_WORDS)| >= 6
  {
    var used := Plain(USED, [3, 0]);
    assert THREE_WORDS.blocks == [used] && THREE_WORDS.blocks[1..] == [];
    assert UsedTokens([]) == 0 && UsedTokens(THREE_WORDS.blocks) == 1;
    assert BlockOk(m, 3, used);
  }

  /** An accepted batch with a replacement aimed at a wait header: the walk counts the wait as one
      word, the replacement as two, and what comes out does not decode to the translated packets. */
  lemma WaitIsSplit()
    ensures THREE_WORDS.Valid()
    ensures var b := Batch(WAITING, Encode(THREE_WORDS), 3);
            Accepts(b, [AT_WAIT]) && var out := Result(b, [AT_WAIT]).value;
            out.used <= |out.commands| && WalkOk(b.commands[..b.used]) && Decodes(Length, b.commands[..b.used]) &&
            !Reads(Length, out.commands[..out.used],
                   Translated(Length, Packets(Length, b.commands[..b.used]), 0, [AT_WAIT]))
  {
    var b, reps := Batch(WAITING, Encode(THREE_WORDS), 3), [AT_WAIT];
    WaitAccepted();
    assert b.commands[..b.used] == WAITING;
    RewrittenStream(b, reps);
    assert AT_WAIT in reps && IsWait(WAITING[0]);
  }
}
