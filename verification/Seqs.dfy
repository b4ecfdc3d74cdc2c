/** Small facts about sequences and bags, stated once so that longer proofs call them by name. */
module Seqs {
  lemma Assoc<T>(a: seq<T>, b: seq<T>, c: seq<T>)
    ensures (a + b) + c == a + (b + c)
  {
  }

  /** Cutting a concatenation inside, or at the end of, its first part. */
  lemma CutAppend<T>(a: seq<T>, b: seq<T>, n: nat)
    requires n <= |a|
    ensures (a + b)[n..] == a[n..] + b && (a + b)[..n] == a[..n]
    ensures n == |a| ==> (a + b)[n..] == b && (a + b)[..n] == a
  {
  }

  /** Cutting the suffix that starts at i. */
  lemma CutDrop<T>(s: seq<T>, i: nat, n: nat)
    requires i + n <= |s|
    ensures s[i..][n..] == s[i + n..] && s[i..][..n] == s[i..i + n]
    ensures s[i..] == s[i..i + n] + s[i + n..]
  {
  }

  lemma Split<T>(s: seq<T>, i: nat, j: nat, k: nat)
    requires i <= j <= k <= |s|
    ensures s[i..k] == s[i..j] + s[j..k]
  {
  }

  /** A window of a prefix is a window of the whole. */
  lemma TakeWindow<T>(s: seq<T>, n: nat, i: nat, j: nat)
    requires i <= j <= n <= |s|
    ensures s[..n][i..j] == s[i..j]
  {
  }

  lemma SameTail<T>(head: seq<T>, a: seq<T>, b: seq<T>)
    ensures head + a == head + b <==> a == b
  {
    if head + a == head + b {
      assert (head + a)[|head|..] == a && (head + b)[|head|..] == b;
    }
  }

  lemma ConsParts<T>(x: T, s: seq<T>)
    ensures ([x] + s)[0] == x && ([x] + s)[1..] == s
  {
  }

  lemma Uncons<T>(s: seq<T>)
    requires s != []
    ensures s == [s[0]] + s[1..]
  {
  }

  lemma SplitPrepend<T>(s: seq<T>, i: nat, j: nat, k: nat, tail: seq<T>)
    requires i <= j <= k <= |s|
    ensures s[i..k] + tail == s[i..j] + (s[j..k] + tail)
  {
    Split(s, i, j, k);
    Assoc(s[i..j], s[j..k], tail);
  }

  lemma AddBoth<T>(h: multiset<T>, a: multiset<T>, x: multiset<T>, b: multiset<T>, y: multiset<T>)
    requires a + x == b + y
    ensures (h + a) + x == (h + b) + y
  {
    assert (h + a) + x == h + (a + x) && (h + b) + y == h + (b + y);
  }
}
