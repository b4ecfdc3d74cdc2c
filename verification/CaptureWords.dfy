/** How the command walk reads a packet, said on the packet's words. */
module CaptureWords {
  import opened Words
  import opened Capture

  /** The words in memory, each with its low byte first. */
  function Bytes(ws: seq<word>): (bytes: seq<byte>)
    ensures |bytes| == 4 * |ws|
  {
    if ws == [] then []
    else [ws[0] % 0x100, ws[0] / 0x100 % 0x100, ws[0] / 0x1_0000 % 0x100, ws[0] / 0x100_0000] + Bytes(ws[1..])
  }

  /** Two words of an address. */
  function Long(high: nat, low: nat): nat { high * 0x1_0000_0000 + low }

  lemma Digits(w: word)
    ensures w % 0x100 + 0x100 * (w / 0x100 % 0x100) + 0x1_0000 * (w / 0x1_0000 % 0x100) +
            0x100_0000 * (w / 0x100_0000) == w
  {
    var a, b := w / 0x100, w / 0x1_0000;
    assert a / 0x100 == b && b / 0x100 == w / 0x100_0000;
  }

  /** Reading back what was written. */
  lemma {:induction false} WordsBack(ws: seq<word>, k: nat)
    requires k < |ws|
    ensures Word(Bytes(ws), k) == ws[k]
  {
    var head: seq<byte> := [ws[0] % 0x100, ws[0] / 0x100 % 0x100, ws[0] / 0x1_0000 % 0x100, ws[0] / 0x100_0000];
    if k == 0 {
      Digits(ws[0]);
    } else {
      WordsBack(ws[1..], k - 1);
      Behind(head, Bytes(ws[1..]), k - 1);
    }
  }

  lemma Behind(head: seq<byte>, rest: seq<byte>, k: nat)
    requires |head| == 4 && 4 * k + 4 <= |rest|
    ensures Word(head + rest, k + 1) == Word(rest, k)
  {
  }

  /** These bytes are these words. */
  predicate Spells(w: seq<byte>, ws: seq<word>) { |w| == 4 * |ws| && forall k :: 0 <= k < |ws| ==> Holds(w, k, ws[k]) }

  predicate Holds(w: seq<byte>, k: nat, v: word) { 4 * k + 4 <= |w| && Word(w, k) == v }

  /** Every list of words is spelled by its bytes, and one list of bytes spells one. */
  lemma SpelledOnce(ws: seq<word>, ws': seq<word>)
    ensures Spells(Bytes(ws), ws)
    ensures Spells(Bytes(ws), ws') ==> ws' == ws
  {
    forall k | 0 <= k < |ws| ensures Holds(Bytes(ws), k, ws[k]) { WordsBack(ws, k); }
    if Spells(Bytes(ws), ws') {
      forall k | 0 <= k < |ws| ensures ws'[k] == ws[k] { assert Holds(Bytes(ws), k, ws'[k]); }
    }
  }

  /** The size of a packet in words: one for a zero word, the memory-interface commands 2, 5, 7 and 10 and
      two others; the low byte and two for the other memory-interface and media commands; none for the
      rest, which the walk refuses. */
  lemma SizeOnWords(h: word)
    ensures h == 0 || h / 0x80_0000 in {2, 5, 7, 10} || h / 0x1_0000 in {0x6904, 0x680B} ==> PacketWords(h) == 1
    ensures 0x2000_0000 <= h < 0x6000_0000 || h >= 0x8000_0000 ==> PacketWords(h) == 0
    ensures (0 < h < 0x2000_0000 && h / 0x80_0000 !in {2, 5, 7, 10}) ||
            (0x6000_0000 <= h < 0x8000_0000 && h / 0x1_0000 !in {0x6904, 0x680B}) ==>
            PacketWords(h) == h % 0x100 + 2
  {
  }

  lemma Cut4(high: word, low: word)
    ensures Address(high, low, 4) == Long(high, low - low % 4)
  {
    assert Long(high, low) == 4 * (high * 0x4000_0000 + low / 4) + low % 4;
  }

  lemma Cut64(high: word, low: word)
    ensures Address(high, low, 64) == Long(high, low - low % 64)
  {
    assert Long(high, low) == 64 * (high * 0x400_0000 + low / 64) + low % 64;
  }

  lemma CutPage(high: word, low: word)
    ensures Address(high, low, 4096) == Long(high, low - low % 4096)
  {
    PageOf(high * 0x1_0000_0000 + low, high * 0x10_0000 + low / 4096, low % 4096);
  }

  lemma PageOf(n: nat, q: nat, r: nat)
    requires n == 4096 * q + r && r < 4096
    ensures n / 4096 * 4096 == 4096 * q
  {
  }

  /** A chained batch: the header's kind and size, a 64-bit address without its low two bits, and the
      address space in bit 8, set for the process's own. */
  lemma EntryOnWords(w: seq<byte>, ws: seq<word>, e: Entry)
    requires Spells(w, ws)
    ensures NamesEntry(w, e) <==>
            |ws| == 3 && ws[0] / 0x80_0000 == 0x31 && ws[0] % 0x100 == 1 &&
            e.va == Long(ws[2], ws[1] - ws[1] % 4) && e.global == (ws[0] / 0x100 % 2 == 0)
  {
    if |ws| == 3 {
      assert Holds(w, 0, ws[0]) && Holds(w, 1, ws[1]) && Holds(w, 2, ws[2]);
      Cut4(ws[2], ws[1]);
    }
  }

  /** The instruction base: words 10 and 11 of its packet, if bit 0 says that it is set, without 12 bits. */
  lemma BaseOnWords(w: seq<byte>, ws: seq<word>, x: nat)
    requires Spells(w, ws)
    ensures NamesBase(w, x) <==>
            |ws| >= 16 && ws[0] / 0x1_0000 == 0x6101 && ws[10] % 2 == 1 && x == Long(ws[11], ws[10] - ws[10] % 4096)
  {
    if |ws| >= 16 {
      assert Holds(w, 0, ws[0]) && Holds(w, 10, ws[10]) && Holds(w, 11, ws[11]);
      CutPage(ws[11], ws[10]);
    }
  }

  /** A shader's offset: words 1 and 2 of the vertex shader's packet of nine words, or words 1 and 2, 8 and
      9, or 10 and 11 of the pixel shader's of twelve, without 6 bits. */
  lemma OffsetOnWords(w: seq<byte>, ws: seq<word>, x: nat)
    requires Spells(w, ws)
    ensures NamesOffset(w, x) <==>
            (|ws| == 9 && ws[0] / 0x1_0000 == 0x7810 && x == Long(ws[2], ws[1] - ws[1] % 64)) ||
            (|ws| == 12 && ws[0] / 0x1_0000 == 0x7820 &&
             (x == Long(ws[2], ws[1] - ws[1] % 64) || x == Long(ws[9], ws[8] - ws[8] % 64) ||
              x == Long(ws[11], ws[10] - ws[10] % 64)))
  {
    if |ws| == 9 || |ws| == 12 {
      assert Holds(w, 0, ws[0]) && Holds(w, 1, ws[1]) && Holds(w, 2, ws[2]);
      Cut64(ws[2], ws[1]);
    }
    if |ws| == 12 {
      assert Holds(w, 8, ws[8]) && Holds(w, 9, ws[9]) && Holds(w, 10, ws[10]) && Holds(w, 11, ws[11]);
      Cut64(ws[9], ws[8]);
      Cut64(ws[11], ws[10]);
    }
  }

  /** A vertex buffer packet, and what its group of four words at k binds: the pitch in 12 bits, valid with
      bit 14 set and bit 13 clear; the address; the size. */
  lemma BindingOnWords(w: seq<byte>, ws: seq<word>, k: nat)
    requires Spells(w, ws) && k + 4 <= |ws|
    ensures BindsVertices(w) <==> ws[0] / 0x1_0000 == 0x7808 && |ws| % 4 == 1
    ensures Binding(w, k) ==
            Vertices(Long(ws[k + 2], ws[k + 1]), ws[k + 3], ws[k] % 4096,
                     ws[k] / 0x2000 % 2 == 0 && ws[k] / 0x4000 % 2 == 1)
  {
    assert Holds(w, 0, ws[0]) && Holds(w, k, ws[k]) && Holds(w, k + 1, ws[k + 1]) && Holds(w, k + 2, ws[k + 2]) &&
           Holds(w, k + 3, ws[k + 3]);
  }

  /** Which draws are followed: indexed ones that are neither indirect nor predicated, of 1 to 64 indices, one
      instance and no offset, of an index buffer with 1, 2 or 4 bytes an index. */
  lemma DrawableOnWords(w: seq<byte>, ws: seq<word>, x: Indices)
    requires Spells(w, ws) && |ws| >= 7
    ensures Drawable(w, x) <==>
            ws[0] / 0x100 % 2 == 0 && ws[0] / 0x400 % 2 == 0 && ws[1] / 0x100 % 2 == 1 && 1 <= ws[2] <= 64 &&
            ws[4] == 1 && ws[5] == 0 && ws[6] == 0 && x.have && !x.instanced && x.format in {0, 1, 2}
  {
    assert Holds(w, 0, ws[0]) && Holds(w, 1, ws[1]) && Holds(w, 2, ws[2]) && Holds(w, 4, ws[4]) &&
           Holds(w, 5, ws[5]) && Holds(w, 6, ws[6]);
  }

  /** The index values of a draw: single bytes, or two or four with the low one first. */
  lemma NumbersOnBytes(values: seq<byte>, n: nat, i: nat)
    requires i < n
    ensures |values| == n ==> Numbers(values, n, 1)[i] == values[i] as int
    ensures |values| == n * 2 ==> Numbers(values, n, 2)[i] == values[2 * i] as int + 0x100 * values[2 * i + 1] as int
    ensures |values| == n * 4 ==>
              Numbers(values, n, 4)[i] ==
              values[4 * i] as int + 0x100 * values[4 * i + 1] as int + 0x1_0000 * values[4 * i + 2] as int +
              0x100_0000 * values[4 * i + 3] as int
  {
    if |values| == n { LittleOf(values[i * 1..(i + 1) * 1]); }
    if |values| == n * 2 { LittleOf(values[i * 2..(i + 1) * 2]); }
    if |values| == n * 4 { LittleOf(values[i * 4..(i + 1) * 4]); }
  }

  lemma LittleOf(b: seq<byte>)
    ensures |b| == 1 ==> Little(b) == b[0] as int
    ensures |b| == 2 ==> Little(b) == b[0] as int + 0x100 * b[1] as int
    ensures |b| == 4 ==> Little(b) == b[0] as int + 0x100 * b[1] as int + 0x1_0000 * b[2] as int +
                                      0x100_0000 * b[3] as int
  {
    if |b| == 4 {
      assert b[1..][1..] == b[2..] && b[2..][1..] == b[3..] && b[3..][1..] == [];
    }
  }
}
