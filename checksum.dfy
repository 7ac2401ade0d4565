/**
 * The integrity byte of every report: std::accumulate with std::bit_xor
 * over a contiguous run of payload bytes, starting from 0.
 */
module Checksum {
  import opened PulsarTypes

  /**
   * Left fold of exclusive-or over `s`, starting from 0, in the order
   * std::accumulate visits it. It agrees with the fold from the front, so
   * how the bytes are grouped does not matter.
   */
  function XorFold(s: seq<byte>): (r: byte)
    ensures r == XorFoldRight(s)
  {
    if |s| == 0 then 0
    else
      var init, last := s[..|s| - 1], s[|s| - 1];
      XorFoldRightSnoc(init, last);
      assert init + [last] == s;
      XorFold(init) ^ last
  }

  /** Exclusive-or folded from the front: `s[0] ^ (s[1] ^ (... ^ 0))`. */
  function XorFoldRight(s: seq<byte>): byte {
    if |s| == 0 then 0 else s[0] ^ XorFoldRight(s[1..])
  }

  /** Folding from the front, a byte appended at the end is folded in last. */
  lemma {:induction false} XorFoldRightSnoc(a: seq<byte>, x: byte)
    ensures XorFoldRight(a + [x]) == XorFoldRight(a) ^ x
  {
    if |a| > 0 {
      assert (a + [x])[1..] == a[1..] + [x];
      XorFoldRightSnoc(a[1..], x);
    }
  }

  /** Folding a concatenation is the exclusive-or of the two folds. */
  lemma {:induction false} XorFoldAppend(s: seq<byte>, t: seq<byte>)
    ensures XorFold(s + t) == XorFold(s) ^ XorFold(t)
  {
    if |t| == 0 {
      assert s + t == s;
    } else {
      var u := t[..|t| - 1];
      assert (s + t)[..|s + t| - 1] == s + u;
      XorFoldAppend(s, u);
    }
  }

  /** Taking one byte out of the run changes the fold by exactly that byte. */
  lemma {:induction false} XorFoldRemove(t: seq<byte>, i: nat)
    requires i < |t|
    ensures XorFold(t) == t[i] ^ XorFold(t[..i] + t[i + 1..])
  {
    var a, x, b := t[..i], t[i], t[i + 1..];
    assert t == (a + [x]) + b;
    XorFoldAppend(a + [x], b);
    XorFoldSnoc(a, x);
    XorFoldAppend(a, b);
  }

  /** Appending one byte folds it in. */
  lemma {:induction false} XorFoldSnoc(a: seq<byte>, x: byte)
    ensures XorFold(a + [x]) == XorFold(a) ^ x
  {
    assert (a + [x])[..|a|] == a;
  }

  /**
   * The checksum does not depend on the order of the bytes: any two
   * arrangements of the same bytes fold to the same value.
   */
  lemma {:induction false} XorFoldPermutation(s: seq<byte>, t: seq<byte>)
    requires multiset(s) == multiset(t)
    ensures XorFold(s) == XorFold(t)
  {
    if |s| == 0 {
      assert |t| == |multiset(t)| == 0;
    } else {
      var tail := s[1..];
      assert s[0] in t by {
        assert s[0] in multiset(s);
      }
      var i :| 0 <= i < |t| && t[i] == s[0];
      var rest := t[..i] + t[i + 1..];
      RestSameBytes(s, t, i);
      XorFoldPermutation(tail, rest);
      assert s[..0] + tail == tail;
      XorFoldRemove(s, 0);
      XorFoldRemove(t, i);
    }
  }

  /** Removing the first byte of `s` and an equal byte of `t` keeps the two runs permutations of each other. */
  lemma {:induction false} RestSameBytes(s: seq<byte>, t: seq<byte>, i: nat)
    requires multiset(s) == multiset(t) && 0 < |s| && i < |t| && t[i] == s[0]
    ensures multiset(s[1..]) == multiset(t[..i] + t[i + 1..])
  {
    assert s[..0] + s[1..] == s[1..];
    MultisetRemove(s, 0);
    MultisetRemove(t, i);
  }

  /** Removing the byte at `i` removes one occurrence of it from the multiset. */
  lemma {:induction false} MultisetRemove(t: seq<byte>, i: nat)
    requires i < |t|
    ensures multiset(t[..i] + t[i + 1..]) == multiset(t) - multiset{t[i]}
  {
    assert t == t[..i] + [t[i]] + t[i + 1..];
  }

  /**
   * A stored checksum byte `c` is the fold of the payload exactly when the
   * payload followed by `c` folds to zero, which is how a receiver can check it.
   */
  lemma {:induction false} ChecksumCancels(payload: seq<byte>, c: byte)
    ensures c == XorFold(payload) <==> XorFold(payload + [c]) == 0
  {
    assert (payload + [c])[..|payload|] == payload;
  }
}
