/**
 Byte strings in the order of Go's bytes.Compare, and two facts the storage engine leans on:
 the order embeds into the reals (so order reasoning becomes linear arithmetic), and a
 difference strictly inside both strings survives appending anything to either of them.
 */
module Bytes {

  type Byte = b: int | 0 <= b < 256

  type Bytes = seq<Byte>

  /** bytes.Compare(a, b) < 0 */
  predicate Less(a: Bytes, b: Bytes) {
    if b == [] then false
    else if a == [] then true
    else a[0] < b[0] || (a[0] == b[0] && Less(a[1..], b[1..]))
  }

  /** bytes.Compare(a, b) <= 0 */
  predicate LessEq(a: Bytes, b: Bytes) {
    a == b || Less(a, b)
  }

  // ----- the embedding into [0, 1)

  ghost function Rank(a: Bytes): (r: real)
    ensures 0.0 <= r < 1.0
  {
    if a == [] then 0.0 else (1.0 + a[0] as real + Rank(a[1..])) / 257.0
  }

  lemma {:induction false} RankMonotone(a: Bytes, b: Bytes)
    requires Less(a, b)
    ensures Rank(a) < Rank(b)
  {
    if a != [] && a[0] == b[0] {
      RankMonotone(a[1..], b[1..]);
    }
  }

  lemma {:induction false} Trichotomy(a: Bytes, b: Bytes)
    ensures Less(a, b) || a == b || Less(b, a)
  {
    if a != [] && b != [] && a[0] == b[0] {
      Trichotomy(a[1..], b[1..]);
      assert a == [a[0]] + a[1..] && b == [b[0]] + b[1..];
    }
  }

  /** Comparing byte strings is comparing their ranks. */
  lemma {:induction false} RankOrder(a: Bytes, b: Bytes)
    ensures Less(a, b) <==> Rank(a) < Rank(b)
    ensures a == b <==> Rank(a) == Rank(b)
  {
    Trichotomy(a, b);
    if Less(a, b) { RankMonotone(a, b); }
    if Less(b, a) { RankMonotone(b, a); }
  }

  lemma {:induction false} RankOrderAll()
    ensures forall a, b {:trigger Less(a, b)} :: Less(a, b) <==> Rank(a) < Rank(b)
    ensures forall a, b {:trigger Rank(a), Rank(b)} :: Rank(a) == Rank(b) ==> a == b
  {
    forall a, b ensures Less(a, b) <==> Rank(a) < Rank(b) { RankOrder(a, b); }
    forall a, b ensures Rank(a) == Rank(b) ==> a == b { RankOrder(a, b); }
  }

  // ----- differences strictly inside both strings

  /** The two strings differ at a position both have, and a has the smaller byte there. */
  predicate StrongLess(a: Bytes, b: Bytes) {
    a != [] && b != [] && (a[0] < b[0] || (a[0] == b[0] && StrongLess(a[1..], b[1..])))
  }

  predicate IsPrefix(a: Bytes, b: Bytes) {
    a == [] || (b != [] && a[0] == b[0] && IsPrefix(a[1..], b[1..]))
  }

  /** IsPrefix is the usual notion. */
  lemma {:induction false} IsPrefixIff(a: Bytes, b: Bytes)
    ensures IsPrefix(a, b) <==> a <= b
  {
    if a != [] && b != [] {
      IsPrefixIff(a[1..], b[1..]);
      assert a == [a[0]] + a[1..] && b == [b[0]] + b[1..];
    }
  }

  /** A strong difference decides the comparison whatever follows. */
  lemma {:induction false} StrongLessAppend(a: Bytes, x: Bytes, b: Bytes, y: Bytes)
    requires StrongLess(a, b)
    ensures StrongLess(a + x, b + y) && Less(a + x, b + y)
  {
    assert (a + x)[1..] == a[1..] + x && (b + y)[1..] == b[1..] + y;
    if a[0] == b[0] { StrongLessAppend(a[1..], x, b[1..], y); }
  }

  /** A common front part does not matter. */
  lemma {:induction false} StrongLessPrepend(p: Bytes, a: Bytes, b: Bytes)
    requires StrongLess(a, b)
    ensures StrongLess(p + a, p + b)
  {
    if p == [] {
      assert p + a == a && p + b == b;
    } else {
      StrongLessPrepend(p[1..], a, b);
      assert (p + a)[1..] == p[1..] + a && (p + b)[1..] == p[1..] + b;
    }
  }

  /** Strongly different strings are not prefixes of one another. */
  lemma {:induction false} StrongLessNoPrefix(a: Bytes, b: Bytes)
    requires StrongLess(a, b)
    ensures !IsPrefix(a, b) && !IsPrefix(b, a)
  {
    if a[0] == b[0] { StrongLessNoPrefix(a[1..], b[1..]); }
  }

  /** Without a prefix relation the smaller string is strongly smaller. */
  lemma {:induction false} LessIsStrong(a: Bytes, b: Bytes)
    requires Less(a, b) && !IsPrefix(a, b)
    ensures StrongLess(a, b)
  {
    if a[0] == b[0] { LessIsStrong(a[1..], b[1..]); }
  }

  /** Strings of one length are ordered strongly. */
  lemma {:induction false} SameLengthStrong(a: Bytes, b: Bytes)
    requires |a| == |b| && Less(a, b)
    ensures StrongLess(a, b)
  {
    if a != [] && a[0] == b[0] { SameLengthStrong(a[1..], b[1..]); }
  }

  lemma {:induction false} PrependLess(p: Bytes, a: Bytes, b: Bytes)
    ensures Less(p + a, p + b) <==> Less(a, b)
  {
    if p == [] {
      assert p + a == a && p + b == b;
    } else {
      assert (p + a)[1..] == p[1..] + a && (p + b)[1..] == p[1..] + b;
      PrependLess(p[1..], a, b);
    }
  }

  /** No member of u is a proper prefix of another. */
  ghost predicate PrefixFree(u: iset<Bytes>) {
    forall a, b | a in u && b in u && IsPrefix(a, b) :: a == b
  }

  // ----- incrementing

  /** The argument is non-empty and some byte is below 255: the source panics on anything else. */
  predicate CanIncrement(b: Bytes) {
    exists i | 0 <= i < |b| :: b[i] < 255
  }

  /** Reference: the big-endian successor of the same length. */
  function Increment(b: Bytes): (r: Bytes)
    requires CanIncrement(b)
    ensures |r| == |b|
  {
    var n := |b| - 1;
    if b[n] < 255 then b[..n] + [b[n] + 1]
    else
      assert CanIncrement(b[..n]) by {
        var i :| 0 <= i < |b| && b[i] < 255;
        assert b[..n][i] < 255;
      }
      Increment(b[..n]) + [0]
  }

  /** common.IncrementBytesBigEndian: the backward carry loop computes the successor. */
  method IncrementBytesBigEndian(bytes: Bytes) returns (inced: Bytes)
    requires CanIncrement(bytes)
    ensures inced == Increment(bytes)
  {
    inced := bytes;
    var i := |bytes| - 1;
    assert bytes[..i + 1] == bytes;
    while true
      invariant 0 <= i < |bytes| == |inced|
      invariant CanIncrement(bytes[..i + 1])
      invariant inced[..i + 1] == bytes[..i + 1]
      invariant Increment(bytes) == Increment(bytes[..i + 1]) + inced[i + 1..]
      decreases i
    {
      var b := bytes[i];
      var p := bytes[..i + 1];
      assert p[..i] == bytes[..i] && p[i] == b;
      if b < 255 {
        inced := inced[i := b + 1];
        return;
      }
      assert i != 0 by {
        var j :| 0 <= j < |p| && p[j] < 255;
      }
      assert Increment(p) == Increment(bytes[..i]) + [0];
      ghost var rest := inced[i + 1..];
      inced := inced[i := 0];
      assert inced[i..] == [0] + rest;
      i := i - 1;
    }
  }

  /** The successor is strongly above the original, hence above any extension of it. */
  lemma {:induction false} IncrementAbove(b: Bytes)
    requires CanIncrement(b)
    ensures StrongLess(b, Increment(b))
  {
    var n := |b| - 1;
    assert b == b[..n] + [b[n]];
    if b[n] < 255 {
      StrongLessPrepend(b[..n], [b[n]], [b[n] + 1]);
    } else {
      var i :| 0 <= i < |b| && b[i] < 255;
      assert b[..n][i] < 255;
      IncrementAbove(b[..n]);
      StrongLessAppend(b[..n], [b[n]], Increment(b[..n]), [0]);
    }
  }

  /** Nothing of the same length lies strictly between a key and its successor. */
  lemma {:induction false} IncrementIsNext(b: Bytes, c: Bytes)
    requires CanIncrement(b) && |c| == |b| && Less(b, c)
    ensures LessEq(Increment(b), c)
  {
    var n := |b| - 1;
    var bh, ch, x, y := b[..n], c[..n], b[n], c[n];
    assert b == bh + [x] && c == ch + [y];
    if bh == ch {
      PrependLess(bh, [x], [y]);
      if y != x + 1 { PrependLess(bh, [x + 1], [y]); }
    } else {
      HeadsLess(bh, x, ch, y);
      if x < 255 {
        ExtendLess(bh, x + 1, ch, y);
      } else {
        var i :| 0 <= i < |b| && b[i] < 255;
        assert bh[i] < 255;
        IncrementIsNext(bh, ch);
        ExtendLessEq(Increment(bh), ch, y);
      }
    }
  }

  lemma {:induction false} ExtendLess(bh: Bytes, x: Byte, ch: Bytes, y: Byte)
    requires |bh| == |ch| && Less(bh, ch)
    ensures Less(bh + [x], ch + [y])
  {
    SameLengthStrong(bh, ch);
    StrongLessAppend(bh, [x], ch, [y]);
  }

  lemma {:induction false} ExtendLessEq(bh: Bytes, ch: Bytes, y: Byte)
    requires |bh| == |ch| && LessEq(bh, ch)
    ensures LessEq(bh + [0], ch + [y])
  {
    if bh == ch {
      PrependLess(bh, [0], [y]);
    } else {
      ExtendLess(bh, 0, ch, y);
    }
  }

  lemma {:induction false} HeadsLess(bh: Bytes, x: Byte, ch: Bytes, y: Byte)
    requires |bh| == |ch| && bh != ch && Less(bh + [x], ch + [y])
    ensures Less(bh, ch)
  {
    assert bh == [bh[0]] + bh[1..] && ch == [ch[0]] + ch[1..];
    assert (bh + [x])[1..] == bh[1..] + [x] && (ch + [y])[1..] == ch[1..] + [y];
    if bh[0] == ch[0] { HeadsLess(bh[1..], x, ch[1..], y); }
  }
}
