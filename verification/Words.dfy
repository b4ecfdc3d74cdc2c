/** 32-bit command words and the bit fields the rewriter and the executor read from them.
    Shifts and masks of the source are written as division and remainder by powers of two. */
module Words {
  datatype Option<+T> = None | Some(value: T)

  type word = w: int | 0 <= w < 0x1_0000_0000

  const FIELD := 0x10_0000 // 2^20, the size of the relocation target field

  /** The 20-bit target field, (w >> 5) & 0xfffff. */
  function Target(w: word): nat {
    w / 32 % FIELD
  }

  /** (w & ~(0xfffff << 5)) | (target << 5), for a target that fits the field. */
  function Retarget(w: word, target: nat): word
    requires target < FIELD
  {
    w / 0x200_0000 * 0x200_0000 + target * 32 + w % 32
  }

  /** The word a fresh relocation starts with: (target << 5) | 0x11. */
  function FreshHead(target: nat): word
    requires target < FIELD
  {
    target * 32 + 0x11
  }

  /** Retargeting replaces the target and nothing else: bits 0-4 and 25-31 survive. */
  lemma RetargetFields(w: word, target: nat)
    requires target < FIELD
    ensures Target(Retarget(w, target)) == target
    ensures Retarget(w, target) % 32 == w % 32
    ensures Retarget(w, target) / 0x200_0000 == w / 0x200_0000
    ensures Retarget(w, target) % 2 == w % 2
  {
    var hi, lo := w / 0x200_0000, w % 32;
    CutLow(hi * 0x10_0000 + target, lo);
    CutField(hi, target);
    CutTop(hi, target * 32 + lo);
  }

  lemma CutLow(q: nat, r: nat)
    requires r < 32
    ensures (q * 32 + r) / 32 == q && (q * 32 + r) % 32 == r && (q * 32 + r) % 2 == r % 2
  {
  }

  lemma CutField(q: nat, r: nat)
    requires r < FIELD
    ensures (q * FIELD + r) % FIELD == r
  {
  }

  lemma CutTop(q: nat, r: nat)
    requires r < 0x200_0000
    ensures (q * 0x200_0000 + r) / 0x200_0000 == q
  {
  }

  /** A word is determined by its target and its other bits. */
  lemma RetargetSelf(w: word)
    ensures Retarget(w, Target(w)) == w
  {
    assert w / 32 / FIELD == w / 0x200_0000;
  }

  lemma Odd(k: int)
    ensures (2 * k + 1) % 2 == 1
  {
  }

  /** The type and the opcode of a packet header. */
  function Type(h: word): nat { h / 0x2000_0000 }

  function Opcode(h: word): nat { h / 0x80_0000 % 64 }

  predicate AllZero(s: seq<word>) {
    forall i :: 0 <= i < |s| ==> s[i] == 0
  }

  function Zeros(n: nat): (z: seq<word>)
    ensures |z| == n && AllZero(z)
  {
    seq(n, _ => 0)
  }
}
