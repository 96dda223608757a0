/**
 Key encoding: encoding/key_encoding.go and the composite keys of evbatch/encoding.go.

 The byte order of encoded keys is the order of the rows they encode, encodings of one schema are
 prefix-free, and decoding inverts encoding at any offset with anything following. Keys are stored
 with the inverted version appended, so newer versions of a key come first.
 */
module KeyEncoding {
  import opened Bytes

  datatype Option<+T> = None | Some(value: T)

  // ----- fixed-width big-endian numbers

  const TWO63: int := 0x8000_0000_0000_0000
  const TWO64: int := 0x1_0000_0000_0000_0000
  const MAX_UINT64: int := TWO64 - 1

  type UInt64 = x: int | 0 <= x < 0x1_0000_0000_0000_0000
  type Int64 = x: int | -0x8000_0000_0000_0000 <= x < 0x8000_0000_0000_0000

  function Pow256(w: nat): (p: nat)
    ensures p > 0
  {
    if w == 0 then 1 else 256 * Pow256(w - 1)
  }

  lemma {:induction false} Pow256Of8()
    ensures Pow256(8) == TWO64
  {
    assert Pow256(2) == 0x1_0000;
    assert Pow256(4) == 0x1_0000_0000;
    assert Pow256(6) == 0x1_0000_0000_0000;
  }

  /** The w big-endian base-256 digits of v. */
  function BigEndian(v: nat, w: nat): (b: Bytes)
    ensures |b| == w
  {
    if w == 0 then [] else BigEndian(v / 256, w - 1) + [v % 256]
  }

  function FromBigEndian(b: Bytes): (v: nat)
    ensures v < Pow256(|b|)
  {
    if b == [] then 0 else FromBigEndian(b[..|b| - 1]) * 256 + b[|b| - 1]
  }

  lemma {:induction false} BigEndianInverse(v: nat, w: nat)
    requires v < Pow256(w)
    ensures FromBigEndian(BigEndian(v, w)) == v
  {
    if w > 0 {
      BigEndianInverse(v / 256, w - 1);
      assert BigEndian(v, w)[..w - 1] == BigEndian(v / 256, w - 1);
    }
  }

  lemma {:induction false} BigEndianOrder(v: nat, u: nat, w: nat)
    requires v < u < Pow256(w)
    ensures StrongLess(BigEndian(v, w), BigEndian(u, w))
  {
    if v / 256 == u / 256 {
      StrongLessPrepend(BigEndian(v / 256, w - 1), [v % 256], [u % 256]);
    } else {
      BigEndianOrder(v / 256, u / 256, w - 1);
      StrongLessAppend(BigEndian(v / 256, w - 1), [v % 256], BigEndian(u / 256, w - 1), [u % 256]);
    }
  }

  /** AppendUint64ToBufferBE / ReadUint64FromBufferBE on the eight bytes themselves. */
  function EncodeUint64(u: UInt64): (b: Bytes)
    ensures |b| == 8
  {
    BigEndian(u, 8)
  }

  function DecodeUint64(b: Bytes): (u: UInt64)
    requires |b| == 8
  {
    Pow256Of8();
    FromBigEndian(b)
  }

  lemma {:induction false} Uint64Codec(u: UInt64, v: UInt64)
    ensures DecodeUint64(EncodeUint64(u)) == u
    ensures u < v ==> StrongLess(EncodeUint64(u), EncodeUint64(v))
  {
    Pow256Of8();
    BigEndianInverse(u, 8);
    if u < v { BigEndianOrder(u, v, 8); }
  }

  /** u ^ SignBitMask on 64 bits: flip the top bit. */
  function FlipSignBit(u: UInt64): UInt64 {
    if u < TWO63 then u + TWO63 else u - TWO63
  }

  /** The two's complement reading uint64(val) and its inverse int64(u). */
  function ToUint64(val: Int64): UInt64 {
    if val < 0 then val + TWO64 else val
  }

  function ToInt64(u: UInt64): Int64 {
    if u < TWO63 then u else u - TWO64
  }

  function EncodeInt(val: Int64): (b: Bytes)
    ensures |b| == 8
  {
    EncodeUint64(FlipSignBit(ToUint64(val)))
  }

  function DecodeInt(b: Bytes): (val: Int64)
    requires |b| == 8
  {
    ToInt64(FlipSignBit(DecodeUint64(b)))
  }

  lemma {:induction false} IntCodec(u: Int64, v: Int64)
    ensures DecodeInt(EncodeInt(u)) == u
    ensures u < v ==> StrongLess(EncodeInt(u), EncodeInt(v))
  {
    Uint64Codec(FlipSignBit(ToUint64(u)), FlipSignBit(ToUint64(v)));
  }

  // ----- strings: groups of eight bytes, each followed by a marker

  const GROUP: nat := 8

  /** The first k bytes of s, padded with zeros. */
  function Pad(s: Bytes, k: nat): (p: Bytes)
    ensures |p| == k
  {
    if k == 0 then []
    else if s == [] then [0] + Pad(s, k - 1)
    else [s[0]] + Pad(s[1..], k - 1)
  }

  function Marker(s: Bytes): Byte {
    if |s| >= GROUP then 255 else 247 + |s|
  }

  /** The encoding KeyEncodeString's loop builds: full groups, then one padded group. */
  function EncodeString(s: Bytes): (b: Bytes)
    ensures |b| >= GROUP + 1
  {
    Pad(s, GROUP) + [Marker(s)] + if |s| >= GROUP then EncodeString(s[GROUP..]) else []
  }

  lemma {:induction false} PadShort(s: Bytes, k: nat)
    requires |s| <= k
    ensures Pad(s, k)[..|s|] == s
    ensures forall i | |s| <= i < k :: Pad(s, k)[i] == 0
  {
    if k > 0 {
      if s == [] {
        PadShort(s, k - 1);
      } else {
        PadShort(s[1..], k - 1);
        assert s == [s[0]] + s[1..];
        assert Pad(s, k)[1..] == Pad(s[1..], k - 1);
        assert Pad(s, k)[..|s|] == [s[0]] + Pad(s[1..], k - 1)[..|s| - 1];
        forall i | |s| <= i < k ensures Pad(s, k)[i] == 0 {
          assert Pad(s, k)[i] == Pad(s[1..], k - 1)[i - 1];
        }
      }
    }
  }

  lemma {:induction false} PadLong(s: Bytes, k: nat)
    requires k <= |s|
    ensures Pad(s, k) == s[..k]
  {
    if k > 0 {
      PadLong(s[1..], k - 1);
      assert s[..k] == [s[0]] + s[1..][..k - 1];
    }
  }

  function Min(a: nat, b: nat): nat { if a <= b then a else b }

  /** How two ordered strings compare on their first k bytes. */
  predicate PadOrdered(a: Bytes, b: Bytes, k: nat) {
    || Less(Pad(a, k), Pad(b, k))
    || (Pad(a, k) == Pad(b, k) && Min(|a|, k) < Min(|b|, k))
    || (k <= |a| && k <= |b| && a[..k] == b[..k] && Less(a[k..], b[k..]))
  }

  /** A padded group orders like the string, unless the strings differ only beyond it. */
  lemma {:induction false} PadOrder(a: Bytes, b: Bytes, k: nat)
    requires Less(a, b)
    ensures PadOrdered(a, b, k)
  {
    if k == 0 {
      assert a[0..] == a && b[0..] == b;
    } else if a == [] {
      PadOfEmpty(b, k);
    } else if a[0] == b[0] {
      hide Pad, PadOrdered;
      PadOrder(a[1..], b[1..], k - 1);
      PadOrderedCons(a[0], a[1..], b[1..], k - 1);
      assert a == [a[0]] + a[1..] && b == [b[0]] + b[1..];
    } else {
      assert Pad(a, k)[0] == a[0] && Pad(b, k)[0] == b[0];
    }
  }

  lemma {:induction false} PadOrderedCons(x: Byte, a: Bytes, b: Bytes, k: nat)
    requires PadOrdered(a, b, k)
    ensures PadOrdered([x] + a, [x] + b, k + 1)
  {
    var c, d := [x] + a, [x] + b;
    assert c[1..] == a && d[1..] == b;
    assert Pad(c, k + 1) == [x] + Pad(a, k) && Pad(d, k + 1) == [x] + Pad(b, k);
    if Less(Pad(a, k), Pad(b, k)) {
      PrependLess([x], Pad(a, k), Pad(b, k));
    } else if k <= |a| && k <= |b| && a[..k] == b[..k] {
      assert c[..k + 1] == [x] + a[..k] && d[..k + 1] == [x] + b[..k];
      assert c[k + 1..] == a[k..] && d[k + 1..] == b[k..];
    }
  }

  lemma {:induction false} PadOfEmpty(b: Bytes, k: nat)
    ensures Pad([], k) == Pad(b, k) || Less(Pad([], k), Pad(b, k))
  {
    if k > 0 {
      PadOfEmpty(if b == [] then b else b[1..], k - 1);
      assert Pad([], k)[1..] == Pad([], k - 1);
      if b != [] { assert Pad(b, k)[1..] == Pad(b[1..], k - 1); }
    }
  }

  /** The grouped encoding preserves the byte order, and strongly: no encoding extends another. */
  lemma {:induction false} EncodeStringOrder(a: Bytes, b: Bytes)
    requires Less(a, b)
    ensures StrongLess(EncodeString(a), EncodeString(b))
    decreases |a|
  {
    PadOrder(a, b, GROUP);
    var pa, pb := Pad(a, GROUP), Pad(b, GROUP);
    var ta := [Marker(a)] + if |a| >= GROUP then EncodeString(a[GROUP..]) else [];
    var tb := [Marker(b)] + if |b| >= GROUP then EncodeString(b[GROUP..]) else [];
    assert EncodeString(a) == pa + ta && EncodeString(b) == pb + tb;
    if Less(pa, pb) {
      SameLengthStrong(pa, pb);
      StrongLessAppend(pa, ta, pb, tb);
    } else if pa == pb && Min(|a|, GROUP) < Min(|b|, GROUP) {
      StrongLessPrepend(pa, ta, tb);
    } else {
      PadLong(a, GROUP);
      PadLong(b, GROUP);
      EncodeStringOrder(a[GROUP..], b[GROUP..]);
      StrongLessPrepend([255], EncodeString(a[GROUP..]), EncodeString(b[GROUP..]));
      StrongLessPrepend(pa, ta, tb);
    }
  }

  lemma {:induction false} PaddedGroup(s: Bytes)
    requires |s| < GROUP
    ensures Pad(s, GROUP) == s + seq(GROUP - |s|, _ => 0)
    ensures EncodeString(s) == s + seq(GROUP - |s|, _ => 0) + [255 - (GROUP - |s|)]
  {
    PadShort(s, GROUP);
  }

  lemma {:induction false} FullGroup(s: Bytes)
    requires |s| >= GROUP
    ensures EncodeString(s) == s[..GROUP] + [255] + EncodeString(s[GROUP..])
  {
    PadLong(s, GROUP);
  }

  lemma {:induction false} Regroup(a: Bytes, b: Bytes, c: Bytes, d: Bytes)
    ensures a + (b + c + d) == a + b + c + d
  {
  }

  /** KeyEncodeString: the append loop produces the grouped encoding. */
  method KeyEncodeString(buffer: Bytes, val: Bytes) returns (r: Bytes)
    ensures r == buffer + EncodeString(val)
  {
    hide EncodeString, Pad;
    r := buffer;
    var idx := 0;
    ghost var todo := EncodeString(val);
    assert val[0..] == val;
    while idx <= |val|
      invariant 0 <= idx
      invariant todo == if idx <= |val| then EncodeString(val[idx..]) else []
      invariant buffer + EncodeString(val) == r + todo
      decreases |val| + 1 - idx
    {
      var remain := |val| - idx;
      var padCount := 0;
      var chunk;
      if remain >= GROUP {
        FullGroup(val[idx..]);
        chunk := val[idx..idx + GROUP];
        assert val[idx..][..GROUP] == chunk && val[idx..][GROUP..] == val[idx + GROUP..];
        todo := EncodeString(val[idx + GROUP..]);
      } else {
        PaddedGroup(val[idx..]);
        padCount := GROUP - remain;
        chunk := val[idx..] + seq(padCount, _ => 0);
        todo := [];
      }
      ghost var before := r;
      r := r + chunk + [255 - padCount];
      Regroup(before, chunk, [255 - padCount], todo);
      idx := idx + GROUP;
    }
  }

  /** What KeyDecodeString reads at the front of b: the string and the number of bytes consumed. */
  function DecodeString(b: Bytes): (r: Option<(Bytes, nat)>)
    ensures r.Some? ==> r.value.1 <= |b|
    decreases |b|
  {
    if |b| < GROUP + 1 then None
    else
      var padCount := 255 - b[GROUP];
      if padCount > GROUP then None
      else if padCount == 0 then
        var rest := DecodeString(b[GROUP + 1..]);
        if rest.None? then None else Some((b[..GROUP] + rest.value.0, rest.value.1 + GROUP + 1))
      else if forall i | GROUP - padCount <= i < GROUP :: b[i] == 0 then
        Some((b[..GROUP - padCount], GROUP + 1))
      else None
  }

  lemma {:induction false} DecodeFullGroup(group: Bytes, rest: Bytes)
    requires |group| == GROUP
    ensures var b, d := group + [255] + rest, DecodeString(rest);
            DecodeString(b) == if d.None? then None else Some((group + d.value.0, d.value.1 + GROUP + 1))
  {
    var b := group + [255] + rest;
    assert b[..GROUP] == group && b[GROUP + 1..] == rest;
  }

  lemma {:induction false} DecodePaddedGroup(s: Bytes, rest: Bytes)
    requires |s| < GROUP
    ensures DecodeString(s + seq(GROUP - |s|, _ => 0) + [247 + |s|] + rest) == Some((s, GROUP + 1))
  {
    var b := s + seq(GROUP - |s|, _ => 0) + [247 + |s|] + rest;
    assert b[GROUP] == 247 + |s| && b[..|s|] == s;
  }

  /** Decoding inverts encoding whatever follows. */
  lemma {:induction false} DecodeStringInverse(s: Bytes, suffix: Bytes)
    ensures DecodeString(EncodeString(s) + suffix) == Some((s, |EncodeString(s)|))
    decreases |s|
  {
    hide EncodeString, DecodeString, Pad;
    if |s| >= GROUP {
      FullGroup(s);
      DecodeStringInverse(s[GROUP..], suffix);
      DecodeFullGroup(s[..GROUP], EncodeString(s[GROUP..]) + suffix);
      Regroup([], s[..GROUP] + [255], EncodeString(s[GROUP..]), suffix);
      assert s[..GROUP] + [255] + (EncodeString(s[GROUP..]) + suffix) == EncodeString(s) + suffix;
      assert s == s[..GROUP] + s[GROUP..];
    } else {
      PaddedGroup(s);
      DecodePaddedGroup(s, suffix);
    }
  }

  /** Whatever decodes was encoded: the accepted byte strings are exactly the encodings. */
  lemma {:induction false} DecodeStringCanonical(b: Bytes)
    requires DecodeString(b).Some?
    ensures b[..DecodeString(b).value.1] == EncodeString(DecodeString(b).value.0)
    decreases |b|
  {
    var (s, n) := DecodeString(b).value;
    var padCount := 255 - b[GROUP];
    if padCount == 0 {
      DecodeStringCanonical(b[GROUP + 1..]);
      var (t, m) := DecodeString(b[GROUP + 1..]).value;
      assert s[..GROUP] == b[..GROUP] && s[GROUP..] == t;
      PadLong(s, GROUP);
      assert b[..n] == b[..GROUP] + [b[GROUP]] + b[GROUP + 1..][..m];
    } else {
      PadShort(s, GROUP);
      assert b[..GROUP] == Pad(s, GROUP);
      assert b[..n] == b[..GROUP] + [b[GROUP]];
    }
  }

  /** KeyDecodeString: the loop over groups, with its three error exits. */
  method KeyDecodeString(buffer: Bytes, offset: nat) returns (r: Option<(Bytes, nat)>)
    requires offset <= |buffer|
    ensures var d := DecodeString(buffer[offset..]);
            r == if d.None? then None else Some((d.value.0, offset + d.value.1))
  {
    var res: Bytes := [];
    var rest, off := buffer[offset..], offset;
    while true
      invariant off >= offset
      invariant var d, e := DecodeString(buffer[offset..]), DecodeString(rest);
                (d.None? <==> e.None?)
                && (d.Some? ==> d.value.0 == res + e.value.0 && offset + d.value.1 == off + e.value.1)
      decreases |rest|
    {
      if |rest| < GROUP + 1 { return None; }
      var group, marker := rest[..GROUP], rest[GROUP];
      var padCount := 255 - marker;
      if padCount > GROUP { return None; }
      var realGroupSize := GROUP - padCount;
      if padCount != 0 {
        var i := realGroupSize;
        while i < GROUP
          invariant realGroupSize <= i <= GROUP
          invariant forall j | realGroupSize <= j < i :: rest[j] == 0
        {
          if group[i] != 0 { return None; }
          i := i + 1;
        }
        assert group[..realGroupSize] == rest[..realGroupSize];
        return Some((res + group[..realGroupSize], off + GROUP + 1));
      }
      assert group[..realGroupSize] == rest[..GROUP];
      res := res + group[..realGroupSize];
      rest := rest[GROUP + 1..];
      off := off + GROUP + 1;
    }
  }

  // ----- columns and rows

  datatype ColumnType = IntType | BoolType | DecimalType | StringType | BytesType | TimestampType

  /** A decimal128 is its signed high word and unsigned low word. */
  datatype Value =
    | Null
    | IntValue(i: Int64)
    | BoolValue(b: bool)
    | DecimalValue(hi: Int64, lo: UInt64)
    | StringValue(s: Bytes)
    | BytesValue(s: Bytes)
    | TimestampValue(t: Int64)

  type Row = seq<Value>

  predicate HasType(v: Value, t: ColumnType) {
    v.Null? || match t
      case IntType => v.IntValue?
      case BoolType => v.BoolValue?
      case DecimalType => v.DecimalValue?
      case StringType => v.StringValue?
      case BytesType => v.BytesValue?
      case TimestampType => v.TimestampValue?
  }

  predicate RowHasType(row: Row, types: seq<ColumnType>) {
    |row| == |types| && forall i | 0 <= i < |row| :: HasType(row[i], types[i])
  }

  /** The order of values of one column type: nulls first, then the natural order. */
  predicate ValueLess(x: Value, y: Value) {
    match (x, y)
    case (_, Null) => false
    case (Null, _) => true
    case (IntValue(a), IntValue(b)) => a < b
    case (BoolValue(a), BoolValue(b)) => !a && b
    case (DecimalValue(h, l), DecimalValue(k, m)) => h * TWO64 + l < k * TWO64 + m
    case (StringValue(a), StringValue(b)) => Less(a, b)
    case (BytesValue(a), BytesValue(b)) => Less(a, b)
    case (TimestampValue(a), TimestampValue(b)) => a < b
    case _ => false
  }

  /** Column by column, the first difference decides. */
  predicate RowLess(r: Row, s: Row)
    requires |r| == |s|
  {
    r != [] && (ValueLess(r[0], s[0]) || (r[0] == s[0] && RowLess(r[1..], s[1..])))
  }

  function EncodePayload(v: Value): Bytes
    requires !v.Null?
  {
    match v
    case IntValue(i) => EncodeInt(i)
    case BoolValue(b) => [if b then 1 else 0]
    case DecimalValue(hi, lo) => EncodeInt(hi) + EncodeUint64(lo)
    case StringValue(s) => EncodeString(s)
    case BytesValue(s) => EncodeString(s)
    case TimestampValue(t) => EncodeInt(t)
  }

  /** EncodeKeyCol: a null marker, then the typed payload. */
  function EncodeValue(v: Value): (b: Bytes)
    ensures |b| > 0
  {
    if v.Null? then [0] else [1] + EncodePayload(v)
  }

  function EncodeRow(row: Row): Bytes {
    if row == [] then [] else EncodeValue(row[0]) + EncodeRow(row[1..])
  }

  /** EncodeKeyCols: the loop over the key columns. */
  method EncodeKeyCols(row: Row, buffer: Bytes) returns (r: Bytes)
    ensures r == buffer + EncodeRow(row)
  {
    hide EncodeValue;
    r := buffer;
    ghost var todo := EncodeRow(row);
    assert row[0..] == row;
    for i := 0 to |row|
      invariant todo == EncodeRow(row[i..])
      invariant buffer + EncodeRow(row) == r + todo
    {
      assert row[i..][1..] == row[i + 1..];
      ghost var v, rest := EncodeValue(row[i]), EncodeRow(row[i + 1..]);
      assert todo == v + rest;
      assert r + (v + rest) == r + v + rest;
      r := r + EncodeValue(row[i]);
      todo := rest;
    }
  }

  lemma {:induction false} ValueTotal(x: Value, y: Value, t: ColumnType)
    requires HasType(x, t) && HasType(y, t)
    ensures x == y || ValueLess(x, y) || ValueLess(y, x)
  {
    match (x, y)
    case (StringValue(a), StringValue(b)) => Trichotomy(a, b);
    case (BytesValue(a), BytesValue(b)) => Trichotomy(a, b);
    case _ =>
  }

  lemma {:induction false} EncodeValueOrder(x: Value, y: Value, t: ColumnType)
    requires HasType(x, t) && HasType(y, t) && ValueLess(x, y)
    ensures StrongLess(EncodeValue(x), EncodeValue(y))
  {
    if !x.Null? {
      EncodePayloadOrder(x, y, t);
      StrongLessPrepend([1], EncodePayload(x), EncodePayload(y));
    }
  }

  lemma {:induction false} EncodePayloadOrder(x: Value, y: Value, t: ColumnType)
    requires HasType(x, t) && HasType(y, t) && ValueLess(x, y) && !x.Null?
    ensures StrongLess(EncodePayload(x), EncodePayload(y))
  {
    match (x, y) {
      case (IntValue(a), IntValue(b)) => IntCodec(a, b);
      case (TimestampValue(a), TimestampValue(b)) => IntCodec(a, b);
      case (DecimalValue(h, l), DecimalValue(k, m)) => DecimalOrder(h, l, k, m);
      case (StringValue(a), StringValue(b)) => EncodeStringOrder(a, b);
      case (BytesValue(a), BytesValue(b)) => EncodeStringOrder(a, b);
      case _ =>
    }
  }

  lemma {:induction false} DecimalOrder(h: Int64, l: UInt64, k: Int64, m: UInt64)
    requires h * TWO64 + l < k * TWO64 + m
    ensures StrongLess(EncodeInt(h) + EncodeUint64(l), EncodeInt(k) + EncodeUint64(m))
  {
    if h == k {
      Uint64Codec(l, m);
      StrongLessPrepend(EncodeInt(h), EncodeUint64(l), EncodeUint64(m));
    } else {
      IntCodec(h, k);
      StrongLessAppend(EncodeInt(h), EncodeUint64(l), EncodeInt(k), EncodeUint64(m));
    }
  }

  lemma {:induction false} EncodeRowStrong(r: Row, s: Row, types: seq<ColumnType>)
    requires RowHasType(r, types) && RowHasType(s, types) && RowLess(r, s)
    ensures StrongLess(EncodeRow(r), EncodeRow(s))
  {
    if ValueLess(r[0], s[0]) {
      EncodeValueOrder(r[0], s[0], types[0]);
      StrongLessAppend(EncodeValue(r[0]), EncodeRow(r[1..]), EncodeValue(s[0]), EncodeRow(s[1..]));
    } else {
      EncodeRowStrong(r[1..], s[1..], types[1..]);
      StrongLessPrepend(EncodeValue(r[0]), EncodeRow(r[1..]), EncodeRow(s[1..]));
    }
  }

  lemma {:induction false} RowTotal(r: Row, s: Row, types: seq<ColumnType>)
    requires RowHasType(r, types) && RowHasType(s, types)
    ensures r == s || RowLess(r, s) || RowLess(s, r)
  {
    if r != [] {
      ValueTotal(r[0], s[0], types[0]);
      RowTotal(r[1..], s[1..], types[1..]);
      assert r == [r[0]] + r[1..] && s == [s[0]] + s[1..];
    }
  }

  /** EncodeVersion: the version is appended inverted. */
  function EncodeVersion(key: Bytes, version: UInt64): (r: Bytes)
    ensures |r| == |key| + 8
  {
    key + EncodeUint64(MAX_UINT64 - version)
  }

  /**
   Stored keys of one schema compare bytewise exactly as their rows compare column-wise, nulls
   first, and rows that are equal compare by version, newest first. `prefix` is the slab and
   partition part all keys of the range share.
   */
  lemma {:induction false} VersionedKeyOrder(prefix: Bytes, r: Row, v: UInt64, s: Row, w: UInt64,
                                             types: seq<ColumnType>)
    requires RowHasType(r, types) && RowHasType(s, types)
    ensures Less(EncodeVersion(prefix + EncodeRow(r), v), EncodeVersion(prefix + EncodeRow(s), w))
            <==> RowLess(r, s) || (r == s && v > w)
  {
    var a, b := EncodeVersion(prefix + EncodeRow(r), v), EncodeVersion(prefix + EncodeRow(s), w);
    RowTotal(r, s, types);
    RankOrder(a, b);
    RankOrder(b, a);
    if RowLess(r, s) {
      KeyStrong(prefix, r, v, s, w, types);
    } else if r == s {
      if v > w { SameRowStrong(prefix, r, v, w); }
      if w > v { SameRowStrong(prefix, r, w, v); }
    } else {
      KeyStrong(prefix, s, w, r, v, types);
    }
    if r == s { RowIrreflexive(r); }
    else if RowLess(s, r) { RowAsymmetric(s, r, types); }
  }

  lemma {:induction false} KeyStrong(prefix: Bytes, r: Row, v: UInt64, s: Row, w: UInt64, types: seq<ColumnType>)
    requires RowHasType(r, types) && RowHasType(s, types) && RowLess(r, s)
    ensures Less(EncodeVersion(prefix + EncodeRow(r), v), EncodeVersion(prefix + EncodeRow(s), w))
  {
    EncodeRowStrong(r, s, types);
    StrongLessPrepend(prefix, EncodeRow(r), EncodeRow(s));
    StrongLessAppend(prefix + EncodeRow(r), EncodeUint64(MAX_UINT64 - v),
                     prefix + EncodeRow(s), EncodeUint64(MAX_UINT64 - w));
  }

  lemma {:induction false} SameRowStrong(prefix: Bytes, r: Row, v: UInt64, w: UInt64)
    requires v > w
    ensures Less(EncodeVersion(prefix + EncodeRow(r), v), EncodeVersion(prefix + EncodeRow(r), w))
  {
    var x, y := EncodeUint64(MAX_UINT64 - v), EncodeUint64(MAX_UINT64 - w);
    Uint64Codec(MAX_UINT64 - v, MAX_UINT64 - w);
    StrongLessPrepend(prefix + EncodeRow(r), x, y);
    StrongLessAppend(prefix + EncodeRow(r) + x, [], prefix + EncodeRow(r) + y, []);
    assert prefix + EncodeRow(r) + x + [] == prefix + EncodeRow(r) + x;
    assert prefix + EncodeRow(r) + y + [] == prefix + EncodeRow(r) + y;
  }

  lemma {:induction false} RowIrreflexive(r: Row)
    ensures !RowLess(r, r)
  {
    if r != [] {
      RowIrreflexive(r[1..]);
      if r[0].StringValue? || r[0].BytesValue? { RankOrder(r[0].s, r[0].s); }
    }
  }

  lemma {:induction false} RowAsymmetric(r: Row, s: Row, types: seq<ColumnType>)
    requires RowHasType(r, types) && RowHasType(s, types) && RowLess(r, s)
    ensures !RowLess(s, r)
  {
    RankOrderAll();
    if r[0] == s[0] { RowAsymmetric(r[1..], s[1..], types[1..]); }
  }

  /** The unversioned keys of one slab partition. */
  ghost function SchemaKeys(prefix: Bytes, types: seq<ColumnType>): iset<Bytes> {
    iset row: Row | RowHasType(row, types) :: prefix + EncodeRow(row)
  }

  /** No encoded key of a schema is a proper prefix of another: what the storage engine relies on. */
  lemma {:induction false} SchemaKeysPrefixFree(prefix: Bytes, types: seq<ColumnType>)
    ensures PrefixFree(SchemaKeys(prefix, types))
  {
    forall a, b | a in SchemaKeys(prefix, types) && b in SchemaKeys(prefix, types) && IsPrefix(a, b)
      ensures a == b
    {
      var r: Row :| RowHasType(r, types) && a == prefix + EncodeRow(r);
      var s: Row :| RowHasType(s, types) && b == prefix + EncodeRow(s);
      RowTotal(r, s, types);
      if r != s { DistinctRowsNoPrefix(prefix, r, s, types); }
    }
  }

  lemma {:induction false} DistinctRowsNoPrefix(prefix: Bytes, r: Row, s: Row, types: seq<ColumnType>)
    requires RowHasType(r, types) && RowHasType(s, types)
    requires RowLess(r, s) || RowLess(s, r)
    ensures !IsPrefix(prefix + EncodeRow(r), prefix + EncodeRow(s))
  {
    var a, b := prefix + EncodeRow(r), prefix + EncodeRow(s);
    if RowLess(r, s) {
      EncodeRowStrong(r, s, types);
      StrongLessPrepend(prefix, EncodeRow(r), EncodeRow(s));
      StrongLessNoPrefix(a, b);
    } else {
      EncodeRowStrong(s, r, types);
      StrongLessPrepend(prefix, EncodeRow(s), EncodeRow(r));
      StrongLessNoPrefix(b, a);
    }
  }

  // ----- decoding a composite key

  /** One column of DecodeKeyToSlice: the value and the bytes consumed; None is a panic or error. */
  function DecodeValue(b: Bytes, t: ColumnType): (r: Option<(Value, nat)>)
    ensures r.Some? ==> 0 < r.value.1 <= |b|
  {
    if b == [] then None
    else if b[0] == 0 then Some((Null, 1))
    else match t
      case IntType => if |b| < 9 then None else Some((IntValue(DecodeInt(b[1..9])), 9))
      case TimestampType => if |b| < 9 then None else Some((TimestampValue(DecodeInt(b[1..9])), 9))
      case BoolType => if |b| < 2 then None else Some((BoolValue(b[1] == 1), 2))
      case DecimalType =>
        if |b| < 17 then None else Some((DecimalValue(DecodeInt(b[1..9]), DecodeUint64(b[9..17])), 17))
      case StringType =>
        var d := DecodeString(b[1..]);
        if d.None? then None else Some((StringValue(d.value.0), d.value.1 + 1))
      case BytesType =>
        var d := DecodeString(b[1..]);
        if d.None? then None else Some((BytesValue(d.value.0), d.value.1 + 1))
  }

  function DecodeRow(b: Bytes, types: seq<ColumnType>): (r: Option<(Row, nat)>)
    ensures r.Some? ==> r.value.1 <= |b|
  {
    if types == [] then Some(([], 0))
    else
      var d := DecodeValue(b, types[0]);
      if d.None? then None
      else
        var rest := DecodeRow(b[d.value.1..], types[1..]);
        if rest.None? then None else Some(([d.value.0] + rest.value.0, d.value.1 + rest.value.1))
  }

  lemma {:induction false} DecodeValueInverse(v: Value, t: ColumnType, suffix: Bytes)
    requires HasType(v, t)
    ensures DecodeValue(EncodeValue(v) + suffix, t) == Some((v, |EncodeValue(v)|))
  {
    match v {
      case IntValue(i) => DecodeIntAt([1], i, suffix);
      case TimestampValue(i) => DecodeIntAt([1], i, suffix);
      case DecimalValue(hi, lo) => DecodeDecimalAt(hi, lo, suffix);
      case StringValue(s) => DecodeStringAt(s, suffix);
      case BytesValue(s) => DecodeStringAt(s, suffix);
      case _ =>
    }
  }

  lemma {:induction false} DecodeDecimalAt(hi: Int64, lo: UInt64, suffix: Bytes)
    ensures var b := [1] + (EncodeInt(hi) + EncodeUint64(lo)) + suffix;
            DecodeInt(b[1..9]) == hi && DecodeUint64(b[9..17]) == lo
  {
    var b := [1] + (EncodeInt(hi) + EncodeUint64(lo)) + suffix;
    assert b[1..9] == EncodeInt(hi) && b[9..17] == EncodeUint64(lo);
    IntCodec(hi, hi);
    Uint64Codec(lo, lo);
  }

  lemma {:induction false} DecodeIntAt(front: Bytes, i: Int64, suffix: Bytes)
    requires |front| == 1
    ensures DecodeInt((front + EncodeInt(i) + suffix)[1..9]) == i
  {
    assert (front + EncodeInt(i) + suffix)[1..9] == EncodeInt(i);
    IntCodec(i, i);
  }

  lemma {:induction false} DecodeStringAt(s: Bytes, suffix: Bytes)
    ensures DecodeString(([1] + EncodeString(s) + suffix)[1..]) == Some((s, |EncodeString(s)|))
  {
    assert ([1] + EncodeString(s) + suffix)[1..] == EncodeString(s) + suffix;
    DecodeStringInverse(s, suffix);
  }

  lemma {:induction false} DecodeRowInverse(row: Row, types: seq<ColumnType>, suffix: Bytes)
    requires RowHasType(row, types)
    ensures DecodeRow(EncodeRow(row) + suffix, types) == Some((row, |EncodeRow(row)|))
  {
    hide DecodeValue, EncodeValue, DecodeRow;
    if row == [] {
      assert EncodeRow(row) + suffix == suffix;
      DecodeRowOfNone(suffix, types);
    } else {
      var front, rest := EncodeValue(row[0]), EncodeRow(row[1..]);
      var b := EncodeRow(row) + suffix;
      assert b == front + (rest + suffix);
      assert b[|front|..] == rest + suffix;
      DecodeValueInverse(row[0], types[0], rest + suffix);
      DecodeRowInverse(row[1..], types[1..], suffix);
      DecodeRowUnfold(b, types);
      assert row == [row[0]] + row[1..];
    }
  }

  lemma {:induction false} DecodeRowOfNone(b: Bytes, types: seq<ColumnType>)
    requires types == []
    ensures DecodeRow(b, types) == Some(([], 0))
  {
  }

  lemma {:induction false} DecodeRowUnfold(b: Bytes, types: seq<ColumnType>)
    requires types != [] && DecodeValue(b, types[0]).Some?
    ensures var d := DecodeValue(b, types[0]).value;
            var rest := DecodeRow(b[d.1..], types[1..]);
            DecodeRow(b, types)
            == if rest.None? then None else Some(([d.0] + rest.value.0, d.1 + rest.value.1))
  {
    hide DecodeValue;
  }

  /** DecodeKeyToSlice: the loop over the column types, threading the offset. */
  method DecodeKeyToSlice(buffer: Bytes, offset: nat, types: seq<ColumnType>) returns (r: Option<(Row, nat)>)
    requires offset <= |buffer|
    ensures var d := DecodeRow(buffer[offset..], types);
            r == if d.None? then None else Some((d.value.0, offset + d.value.1))
  {
    hide DecodeValue;
    var key: Row, off := [], offset;
    ghost var whole := DecodeRow(buffer[offset..], types);
    ghost var rest := whole;
    assert types[0..] == types;
    for i := 0 to |types|
      invariant offset <= off <= |buffer|
      invariant rest == DecodeRow(buffer[off..], types[i..])
      invariant whole.None? <==> rest.None?
      invariant whole.Some? ==> whole.value.0 == key + rest.value.0
                                && offset + whole.value.1 == off + rest.value.1
    {
      var d := DecodeValue(buffer[off..], types[i]);
      if d.None? { return None; }
      DecodeRowUnfold(buffer[off..], types[i..]);
      assert types[i..][1..] == types[i + 1..];
      assert buffer[off..][d.value.1..] == buffer[off + d.value.1..];
      key := key + [d.value.0];
      off := off + d.value.1;
      rest := DecodeRow(buffer[off..], types[i + 1..]);
    }
    assert types[|types|..] == [] && key + [] == key;
    return Some((key, off));
  }

  /** A key written anywhere in a buffer reads back, with the offset just past it. */
  lemma {:induction false} KeyRoundTrip(front: Bytes, row: Row, types: seq<ColumnType>, suffix: Bytes)
    requires RowHasType(row, types)
    ensures var buffer := front + EncodeRow(row) + suffix;
            DecodeRow(buffer[|front|..], types) == Some((row, |EncodeRow(row)|))
  {
    hide DecodeRow, EncodeRow;
    DecodeRowInverse(row, types, suffix);
    assert (front + EncodeRow(row) + suffix)[|front|..] == EncodeRow(row) + suffix;
  }
}
