/**
 levels/structs.go: how the index is written to the object store. Integers are little-endian, byte
 strings and lists carry a 32-bit length, maps are written as lists in no particular order. Decoding
 undoes encoding whatever follows in the buffer, except that the creation time of a table is not
 written.
 */
module StructCodec {
  import opened Bytes
  import opened KeyEncoding

  const TWO32: int := 0x1_0000_0000

  type UInt32 = n: int | 0 <= n < TWO32

  /** A value read from the front of a buffer and what is left; None is a read past the end. */
  type Read<T> = Option<(T, Bytes)>

  // ----- integers

  function LittleEndian(v: nat, n: nat): (r: Bytes)
    ensures |r| == n
  {
    if n == 0 then [] else [v % 256] + LittleEndian(v / 256, n - 1)
  }

  function FromLittleEndian(b: Bytes): nat {
    if b == [] then 0 else b[0] + 256 * FromLittleEndian(b[1..])
  }

  lemma {:induction false} LittleEndianRoundTrip(v: nat, n: nat)
    requires v < Pow256(n)
    ensures FromLittleEndian(LittleEndian(v, n)) == v
  {
    if n > 0 {
      LittleEndianRoundTrip(v / 256, n - 1);
      var b := LittleEndian(v, n);
      assert b[0] == v % 256 && b[1..] == LittleEndian(v / 256, n - 1);
    }
  }

  lemma {:induction false} Pow256Values()
    ensures Pow256(4) == TWO32 && Pow256(8) == TWO64
  {
    assert Pow256(2) == 65536 && Pow256(4) == 256 * (256 * Pow256(2)) && Pow256(6) == 256 * (256 * Pow256(4));
  }

  function EncU32(v: UInt32): Bytes { LittleEndian(v, 4) }

  function EncU64(v: UInt64): Bytes { LittleEndian(v, 8) }

  function DecU32(b: Bytes): Read<nat> { if |b| < 4 then None else Some((FromLittleEndian(b[..4]), b[4..])) }

  function DecU64(b: Bytes): Read<nat> { if |b| < 8 then None else Some((FromLittleEndian(b[..8]), b[8..])) }

  lemma {:induction false} U32RoundTrip(v: UInt32, rest: Bytes)
    ensures DecU32(EncU32(v) + rest) == Some((v, rest))
  {
    Pow256Values();
    LittleEndianRoundTrip(v, 4);
    var e := EncU32(v);
    assert (e + rest)[..4] == e && (e + rest)[4..] == rest;
  }

  lemma {:induction false} U64RoundTrip(v: UInt64, rest: Bytes)
    ensures DecU64(EncU64(v) + rest) == Some((v, rest))
  {
    Pow256Values();
    LittleEndianRoundTrip(v, 8);
    var e := EncU64(v);
    assert (e + rest)[..8] == e && (e + rest)[8..] == rest;
  }

  // ----- sequences of items

  function EncAll<T>(ts: seq<T>, f: T -> Bytes): Bytes { if ts == [] then [] else f(ts[0]) + EncAll(ts[1..], f) }

  function DecN<T>(n: nat, b: Bytes, d: Bytes -> Read<T>): Read<seq<T>> {
    if n == 0 then Some(([], b))
    else
      var x := d(b);
      if x.None? then None
      else
        var r := DecN(n - 1, x.value.1, d);
        if r.None? then None else Some(([x.value.0] + r.value.0, r.value.1))
  }

  /** Reading back what was written of t gives t', whatever follows. */
  ghost predicate Undoes<T(!new)>(f: T -> Bytes, d: Bytes -> Read<T>, t: T, t': T) {
    forall rest: Bytes :: d(f(t) + rest) == Some((t', rest))
  }

  lemma {:induction false} AllUndone<T(!new)>(ts: seq<T>, ts': seq<T>, f: T -> Bytes, d: Bytes -> Read<T>, rest: Bytes)
    requires |ts| == |ts'| && forall i | 0 <= i < |ts| :: Undoes(f, d, ts[i], ts'[i])
    ensures DecN(|ts|, EncAll(ts, f) + rest, d) == Some((ts', rest))
  {
    if ts == [] {
      assert EncAll(ts, f) + rest == rest;
    } else {
      var more := EncAll(ts[1..], f) + rest;
      assert EncAll(ts, f) + rest == f(ts[0]) + more;
      assert Undoes(f, d, ts[0], ts'[0]);
      AllUndone(ts[1..], ts'[1..], f, d, rest);
      assert ts' == [ts'[0]] + ts'[1..];
    }
  }

  /** A list: its length, then its items. */
  function EncList<T>(ts: seq<T>, f: T -> Bytes): Bytes { EncU32(|ts| % TWO32) + EncAll(ts, f) }

  function DecList<T>(b: Bytes, d: Bytes -> Read<T>): Read<seq<T>> {
    var l := DecU32(b);
    if l.None? then None else DecN(l.value.0, l.value.1, d)
  }

  lemma {:induction false} ListUndone<T(!new)>(ts: seq<T>, ts': seq<T>, f: T -> Bytes, d: Bytes -> Read<T>, rest: Bytes)
    requires |ts| == |ts'| < TWO32 && forall i | 0 <= i < |ts| :: Undoes(f, d, ts[i], ts'[i])
    ensures DecList(EncList(ts, f) + rest, d) == Some((ts', rest))
  {
    U32RoundTrip(|ts|, EncAll(ts, f) + rest);
    assert EncList(ts, f) + rest == EncU32(|ts|) + (EncAll(ts, f) + rest);
    AllUndone(ts, ts', f, d, rest);
  }

  // ----- byte strings

  function EncBytes(x: Bytes): Bytes { EncU32(|x| % TWO32) + x }

  function DecBytes(b: Bytes): Read<Bytes> {
    var l := DecU32(b);
    if l.None? || |l.value.1| < l.value.0 then None
    else Some((l.value.1[..l.value.0], l.value.1[l.value.0..]))
  }

  lemma {:induction false} BytesUndone(x: Bytes)
    requires |x| < TWO32
    ensures Undoes(EncBytes, DecBytes, x, x)
  {
    forall rest: Bytes ensures DecBytes(EncBytes(x) + rest) == Some((x, rest)) {
      U32RoundTrip(|x|, x + rest);
      assert EncBytes(x) + rest == EncU32(|x|) + (x + rest);
      assert (x + rest)[..|x|] == x && (x + rest)[|x|..] == rest;
    }
  }

  function EncNat64(v: nat): Bytes { LittleEndian(v, 8) }

  lemma {:induction false} NatUndone(v: nat)
    requires v < TWO64
    ensures Undoes(EncNat64, DecU64, v, v)
  {
    forall rest: Bytes ensures DecU64(EncNat64(v) + rest) == Some((v, rest)) { U64RoundTrip(v, rest); }
  }

  // ----- table entries and segments

  /** levels/structs.go: TableEntry. The delete ratio is the bits of a 64-bit float. */
  datatype TableRecord = TableRecord(id: Bytes, rangeStart: Bytes, rangeEnd: Bytes, minVersion: nat, maxVersion: nat,
                                     deleteRatio: nat, creationTime: nat, numEntries: nat, size: nat)

  function Keys(t: TableRecord): seq<Bytes> { [t.id, t.rangeStart, t.rangeEnd] }

  function Numbers(t: TableRecord): seq<nat> { [t.minVersion, t.maxVersion, t.deleteRatio, t.numEntries, t.size] }

  /** Lengths fit 32 bits and numbers 64. */
  ghost predicate RecordOk(t: TableRecord) {
    (forall x | x in Keys(t) :: |x| < TWO32) && forall v | v in Numbers(t) :: v < TWO64
  }

  function EncRecord(t: TableRecord): Bytes { EncAll(Keys(t), EncBytes) + EncAll(Numbers(t), EncNat64) }

  function DecRecord(b: Bytes): Read<TableRecord> {
    var k := DecN(3, b, DecBytes);
    if k.None? || |k.value.0| != 3 then None
    else
      var n := DecN(5, k.value.1, DecU64);
      if n.None? || |n.value.0| != 5 then None
      else
        var (k, n, rest) := (k.value.0, n.value.0, n.value.1);
        Some((TableRecord(k[0], k[1], k[2], n[0], n[1], n[2], 0, n[3], n[4]), rest))
  }

  /** A table entry comes back as it was, but without its creation time. */
  lemma {:induction false} RecordUndone(t: TableRecord)
    requires RecordOk(t)
    ensures Undoes(EncRecord, DecRecord, t, t.(creationTime := 0))
  {
    forall rest: Bytes ensures DecRecord(EncRecord(t) + rest) == Some((t.(creationTime := 0), rest)) {
      var k, n := Keys(t), Numbers(t);
      forall i | 0 <= i < 3 ensures Undoes(EncBytes, DecBytes, k[i], k[i]) { assert k[i] in k; BytesUndone(k[i]); }
      forall i | 0 <= i < 5 ensures Undoes(EncNat64, DecU64, n[i], n[i]) { assert n[i] in n; NatUndone(n[i]); }
      AllUndone(k, k, EncBytes, DecBytes, EncAll(n, EncNat64) + rest);
      AllUndone(n, n, EncNat64, DecU64, rest);
      assert EncRecord(t) + rest == EncAll(k, EncBytes) + (EncAll(n, EncNat64) + rest);
    }
  }

  datatype SegmentImage = SegmentImage(format: Byte, tables: seq<TableRecord>)

  function EncSegment(s: SegmentImage): Bytes { [s.format] + EncList(s.tables, EncRecord) }

  function DecSegment(b: Bytes): Read<SegmentImage> {
    if b == [] then None
    else
      var l := DecList(b[1..], DecRecord);
      if l.None? then None else Some((SegmentImage(b[0], l.value.0), l.value.1))
  }

  function Stripped(ts: seq<TableRecord>): (r: seq<TableRecord>)
    ensures |r| == |ts| && forall i | 0 <= i < |r| :: r[i] == ts[i].(creationTime := 0)
  {
    seq(|ts|, i requires 0 <= i < |ts| => ts[i].(creationTime := 0))
  }

  lemma {:induction false} SegmentRoundTrip(s: SegmentImage, rest: Bytes)
    requires |s.tables| < TWO32 && forall t | t in s.tables :: RecordOk(t)
    ensures DecSegment(EncSegment(s) + rest) == Some((s.(tables := Stripped(s.tables)), rest))
  {
    var b := EncSegment(s) + rest;
    assert b[0] == s.format && b[1..] == EncList(s.tables, EncRecord) + rest;
    forall i | 0 <= i < |s.tables| ensures Undoes(EncRecord, DecRecord, s.tables[i], Stripped(s.tables)[i]) {
      assert s.tables[i] in s.tables;
      RecordUndone(s.tables[i]);
    }
    ListUndone(s.tables, Stripped(s.tables), EncRecord, DecRecord, rest);
  }

  lemma {:induction false} EncAllAppend<T>(ts: seq<T>, t: T, f: T -> Bytes)
    ensures EncAll(ts + [t], f) == EncAll(ts, f) + f(t)
  {
    if ts == [] {
      assert ts + [t] == [t] && [t][1..] == [];
    } else {
      EncAllAppend(ts[1..], t, f);
      assert (ts + [t])[1..] == ts[1..] + [t];
    }
  }

  /** segment.serialize: appends to a buffer. */
  method SerializeSegment(s: SegmentImage, buff: Bytes) returns (r: Bytes)
    ensures r == buff + EncSegment(s)
  {
    hide EncRecord, EncAll, EncU32, EncList;
    r := buff + [s.format];
    r := r + EncU32(|s.tables| % TWO32);
    ghost var head := r;
    StartOf<TableRecord>(EncRecord, head);
    for i := 0 to |s.tables|
      invariant r == head + EncAll(s.tables[..i], EncRecord)
    {
      assert s.tables[..i + 1] == s.tables[..i] + [s.tables[i]];
      EncAllAppend(s.tables[..i], s.tables[i], EncRecord);
      Regroup3(head, EncAll(s.tables[..i], EncRecord), EncRecord(s.tables[i]));
      r := r + EncRecord(s.tables[i]);
    }
    assert s.tables[..|s.tables|] == s.tables;
    SegmentParts(s, buff);
  }

  lemma {:induction false} StartOf<T>(f: T -> Bytes, head: Bytes)
    ensures head + EncAll([], f) == head
  {
  }

  lemma {:induction false} Regroup3(a: Bytes, b: Bytes, c: Bytes)
    ensures a + b + c == a + (b + c)
  {
  }

  lemma {:induction false} SegmentParts(s: SegmentImage, buff: Bytes)
    ensures buff + [s.format] + EncU32(|s.tables| % TWO32) + EncAll(s.tables, EncRecord) == buff + EncSegment(s)
  {
    var x, y := EncU32(|s.tables| % TWO32), EncAll(s.tables, EncRecord);
    Regroup3(buff + [s.format], x, y);
    Regroup3(buff, [s.format], x + y);
  }

  /** segment.deserialize: reads the entries one after the other. */
  method DeserializeSegment(buff: Bytes) returns (s: Option<SegmentImage>)
    ensures s == var d := DecSegment(buff); if d.None? then None else Some(d.value.0)
  {
    if buff == [] { return None; }
    var l := DecU32(buff[1..]);
    if l.None? { return None; }
    var tables, rest := [], l.value.1;
    ghost var all := DecN(l.value.0, l.value.1, DecRecord);
    assert DecList(buff[1..], DecRecord) == all;
    assert all == Prepend([], all) by { if all.Some? { assert [] + all.value.0 == all.value.0; } }
    for i := 0 to l.value.0
      invariant all == Prepend(tables, DecN(l.value.0 - i, rest, DecRecord))
    {
      var x := DecRecord(rest);
      if x.None? { return None; }
      PrependNext(tables, x.value.0, DecN(l.value.0 - i - 1, x.value.1, DecRecord));
      tables, rest := tables + [x.value.0], x.value.1;
    }
    assert tables + [] == tables;
    return Some(SegmentImage(buff[0], tables));
  }

  function Prepend<T>(ts: seq<T>, r: Read<seq<T>>): Read<seq<T>> {
    if r.None? then None else Some((ts + r.value.0, r.value.1))
  }

  lemma {:induction false} PrependNext<T>(ts: seq<T>, t: T, r: Read<seq<T>>)
    ensures Prepend(ts, Prepend([t], r)) == Prepend(ts + [t], r)
  {
    if r.Some? { assert ts + ([t] + r.value.0) == ts + [t] + r.value.0; }
  }

  // ----- the master record

  datatype SegmentRef = SegmentRef(format: Byte, id: Bytes, rangeStart: Bytes, rangeEnd: Bytes)

  datatype LevelImage = LevelImage(entries: seq<SegmentRef>, maxVersion: nat)

  /** Maps are lists of pairs here: the order they happen to be written in. */
  datatype MasterImage = MasterImage(format: Byte, version: nat, levels: seq<LevelImage>, tableCounts: seq<(nat, nat)>,
                                     retentions: seq<(Bytes, nat)>, deadRanges: seq<(nat, nat)>,
                                     lastFlushedVersion: Int64, lastReplSeq: Int64, totals: seq<nat>,
                                       levelStats: seq<(nat, seq<nat>)>)

  function EncRef(r: SegmentRef): Bytes { [r.format] + EncAll([r.id, r.rangeStart, r.rangeEnd], EncBytes) }

  function DecRef(b: Bytes): Read<SegmentRef> {
    if b == [] then None
    else
      var k := DecN(3, b[1..], DecBytes);
      if k.None? || |k.value.0| != 3 then None
      else Some((SegmentRef(b[0], k.value.0[0], k.value.0[1], k.value.0[2]), k.value.1))
  }

  predicate RefOk(r: SegmentRef) { |r.id| < TWO32 && |r.rangeStart| < TWO32 && |r.rangeEnd| < TWO32 }

  lemma {:induction false} RefUndone(r: SegmentRef)
    requires RefOk(r)
    ensures Undoes(EncRef, DecRef, r, r)
  {
    forall rest: Bytes ensures DecRef(EncRef(r) + rest) == Some((r, rest)) {
      var k, b := [r.id, r.rangeStart, r.rangeEnd], EncRef(r) + rest;
      BytesUndone(r.id);
      BytesUndone(r.rangeStart);
      BytesUndone(r.rangeEnd);
      assert b[0] == r.format && b[1..] == EncAll(k, EncBytes) + rest;
      AllUndone(k, k, EncBytes, DecBytes, rest);
    }
  }

  function EncLevel(l: LevelImage): Bytes { EncList(l.entries, EncRef) + EncNat64(l.maxVersion) }

  function DecLevel(b: Bytes): Read<LevelImage> {
    var e := DecList(b, DecRef);
    if e.None? then None
    else
      var v := DecU64(e.value.1);
      if v.None? then None else Some((LevelImage(e.value.0, v.value.0), v.value.1))
  }

  ghost predicate LevelOk(l: LevelImage) {
    |l.entries| < TWO32 && l.maxVersion < TWO64 && forall r | r in l.entries :: RefOk(r)
  }

  lemma {:induction false} LevelUndone(l: LevelImage)
    requires LevelOk(l)
    ensures Undoes(EncLevel, DecLevel, l, l)
  {
    forall rest: Bytes ensures DecLevel(EncLevel(l) + rest) == Some((l, rest)) {
      forall i | 0 <= i < |l.entries| ensures Undoes(EncRef, DecRef, l.entries[i], l.entries[i]) {
        assert l.entries[i] in l.entries;
        RefUndone(l.entries[i]);
      }
      ListUndone(l.entries, l.entries, EncRef, DecRef, EncNat64(l.maxVersion) + rest);
      NatUndone(l.maxVersion);
      assert EncLevel(l) + rest == EncList(l.entries, EncRef) + (EncNat64(l.maxVersion) + rest);
    }
  }

  /** A 32-bit number with n 64-bit ones: table counts and level statistics. */
  function EncRow(x: (nat, seq<nat>)): Bytes { LittleEndian(x.0, 4) + EncAll(x.1, EncNat64) }

  function DecRow(n: nat): Bytes -> Read<(nat, seq<nat>)> {
    (b: Bytes) =>
      var l := DecU32(b);
      if l.None? then None
      else
        var v := DecN(n, l.value.1, DecU64);
        if v.None? then None else Some(((l.value.0, v.value.0), v.value.1))
  }

  ghost predicate RowOk(x: (nat, seq<nat>), n: nat) { x.0 < TWO32 && |x.1| == n && forall v | v in x.1 :: v < TWO64 }

  lemma {:induction false} NumbersUndone(ns: seq<nat>, rest: Bytes)
    requires forall v | v in ns :: v < TWO64
    ensures DecN(|ns|, EncAll(ns, EncNat64) + rest, DecU64) == Some((ns, rest))
  {
    forall i | 0 <= i < |ns| ensures Undoes(EncNat64, DecU64, ns[i], ns[i]) { assert ns[i] in ns; NatUndone(ns[i]); }
    AllUndone(ns, ns, EncNat64, DecU64, rest);
  }

  lemma {:induction false} RowUndone(x: (nat, seq<nat>), n: nat)
    requires RowOk(x, n)
    ensures Undoes(EncRow, DecRow(n), x, x)
  {
    forall rest: Bytes ensures DecRow(n)(EncRow(x) + rest) == Some((x, rest)) {
      U32RoundTrip(x.0, EncAll(x.1, EncNat64) + rest);
      NumbersUndone(x.1, rest);
      assert EncRow(x) + rest == LittleEndian(x.0, 4) + (EncAll(x.1, EncNat64) + rest);
    }
  }

  /** A prefix with its retention. */
  function EncRetention(x: (Bytes, nat)): Bytes { EncBytes(x.0) + EncNat64(x.1) }

  function DecRetention(b: Bytes): Read<(Bytes, nat)> {
    var p := DecBytes(b);
    if p.None? then None
    else
      var v := DecU64(p.value.1);
      if v.None? then None else Some(((p.value.0, v.value.0), v.value.1))
  }

  lemma {:induction false} RetentionUndone(x: (Bytes, nat))
    requires |x.0| < TWO32 && x.1 < TWO64
    ensures Undoes(EncRetention, DecRetention, x, x)
  {
    forall rest: Bytes ensures DecRetention(EncRetention(x) + rest) == Some((x, rest)) {
      BytesUndone(x.0);
      NatUndone(x.1);
      assert EncRetention(x) + rest == EncBytes(x.0) + (EncNat64(x.1) + rest);
    }
  }

  function EncRange(x: (nat, nat)): Bytes { EncNat64(x.0) + EncNat64(x.1) }

  function DecRange(b: Bytes): Read<(nat, nat)> {
    var v := DecN(2, b, DecU64);
    if v.None? || |v.value.0| != 2 then None else Some(((v.value.0[0], v.value.0[1]), v.value.1))
  }

  lemma {:induction false} RangeUndone(x: (nat, nat))
    requires x.0 < TWO64 && x.1 < TWO64
    ensures Undoes(EncRange, DecRange, x, x)
  {
    forall rest: Bytes ensures DecRange(EncRange(x) + rest) == Some((x, rest)) {
      var ns := [x.0, x.1];
      NumbersUndone(ns, rest);
      assert ns[1..] == [x.1] && [x.1][1..] == [];
      assert EncAll([x.1], EncNat64) == EncNat64(x.1) + [] == EncNat64(x.1);
      assert EncAll(ns, EncNat64) == EncNat64(x.0) + EncAll([x.1], EncNat64);
    }
  }

  function CountRows(cs: seq<(nat, nat)>): (r: seq<(nat, seq<nat>)>)
    ensures |r| == |cs| && forall i | 0 <= i < |r| :: r[i] == (cs[i].0, [cs[i].1])
  {
    seq(|cs|, i requires 0 <= i < |cs| => (cs[i].0, [cs[i].1]))
  }

  /** The fixed block of 64-bit numbers near the end. */
  function Fixed(m: MasterImage): seq<nat> { [ToUint64(m.lastFlushedVersion), ToUint64(m.lastReplSeq)] + m.totals }

  function EncTail(m: MasterImage): Bytes { EncAll(Fixed(m), EncNat64) + EncList(m.levelStats, EncRow) }

  function EncMiddle(m: MasterImage): Bytes {
    EncList(CountRows(m.tableCounts),
      EncRow) + (EncList(m.retentions, EncRetention) + (EncList(m.deadRanges, EncRange) + EncTail(m)))
  }

  function EncMaster(m: MasterImage): Bytes {
    [m.format] + (EncNat64(m.version) + (EncList(m.levels, EncLevel) + EncMiddle(m)))
  }

  ghost predicate MasterOk(m: MasterImage) {
    && m.version < TWO64 && |m.levels| < TWO32 && (forall l | l in m.levels :: LevelOk(l))
    && |m.tableCounts| < TWO32 && (forall c | c in m.tableCounts :: c.0 < TWO32 && c.1 < TWO64)
    && |m.retentions| < TWO32 && (forall x | x in m.retentions :: |x.0| < TWO32 && x.1 < TWO64)
    && |m.deadRanges| < TWO32 && (forall x | x in m.deadRanges :: x.0 < TWO64 && x.1 < TWO64)
    && |m.totals| == 7 && (forall v | v in m.totals :: v < TWO64)
    && |m.levelStats| < TWO32 && (forall x | x in m.levelStats :: RowOk(x, 3))
  }

  /** The parts after the levels, as they are read. */
  datatype Middle = Middle(counts: seq<(nat, seq<nat>)>, retentions: seq<(Bytes, nat)>, deadRanges: seq<(nat, nat)>,
                           fixedPart: seq<nat>, levelStats: seq<(nat, seq<nat>)>)

  function DecMiddle(b: Bytes): Read<Middle> {
    var c := DecList(b, DecRow(1));
    if c.None? then None
    else
      var p := DecList(c.value.1, DecRetention);
      if p.None? then None
      else
        var d := DecList(p.value.1, DecRange);
        if d.None? then None
        else
          var f := DecN(9, d.value.1, DecU64);
          if f.None? then None
          else
            var l := DecList(f.value.1, DecRow(3));
            if l.None? then None
            else Some((Middle(c.value.0, p.value.0, d.value.0, f.value.0, l.value.0), l.value.1))
  }

  lemma {:induction false} TailUndone(m: MasterImage, rest: Bytes)
    requires MasterOk(m)
    ensures DecN(9, EncTail(m) + rest, DecU64) == Some((Fixed(m), EncList(m.levelStats, EncRow) + rest))
    ensures DecList(EncList(m.levelStats, EncRow) + rest, DecRow(3)) == Some((m.levelStats, rest))
  {
    forall v | v in Fixed(m) ensures v < TWO64 {}
    NumbersUndone(Fixed(m), EncList(m.levelStats, EncRow) + rest);
    assert EncTail(m) + rest == EncAll(Fixed(m), EncNat64) + (EncList(m.levelStats, EncRow) + rest);
    forall i | 0 <= i < |m.levelStats| ensures Undoes(EncRow, DecRow(3), m.levelStats[i], m.levelStats[i]) {
      assert m.levelStats[i] in m.levelStats;
      RowUndone(m.levelStats[i], 3);
    }
    ListUndone(m.levelStats, m.levelStats, EncRow, DecRow(3), rest);
  }

  lemma {:induction false} ListsUndone(m: MasterImage, a: Bytes, b: Bytes, c: Bytes)
    requires MasterOk(m)
    ensures DecList(EncList(CountRows(m.tableCounts), EncRow) + a, DecRow(1)) == Some((CountRows(m.tableCounts), a))
    ensures DecList(EncList(m.retentions, EncRetention) + b, DecRetention) == Some((m.retentions, b))
    ensures DecList(EncList(m.deadRanges, EncRange) + c, DecRange) == Some((m.deadRanges, c))
  {
    var rows := CountRows(m.tableCounts);
    forall i | 0 <= i < |rows| ensures Undoes(EncRow, DecRow(1), rows[i], rows[i]) {
      assert m.tableCounts[i] in m.tableCounts;
      RowUndone(rows[i], 1);
    }
    ListUndone(rows, rows, EncRow, DecRow(1), a);
    forall i | 0 <= i < |m.retentions| ensures Undoes(EncRetention, DecRetention, m.retentions[i], m.retentions[i]) {
      assert m.retentions[i] in m.retentions;
      RetentionUndone(m.retentions[i]);
    }
    ListUndone(m.retentions, m.retentions, EncRetention, DecRetention, b);
    forall i | 0 <= i < |m.deadRanges| ensures Undoes(EncRange, DecRange, m.deadRanges[i], m.deadRanges[i]) {
      assert m.deadRanges[i] in m.deadRanges;
      RangeUndone(m.deadRanges[i]);
    }
    ListUndone(m.deadRanges, m.deadRanges, EncRange, DecRange, c);
  }

  lemma {:induction false} MiddleUndone(m: MasterImage, rest: Bytes)
    requires MasterOk(m)
    ensures DecMiddle(EncMiddle(m) + rest)
            == Some((Middle(CountRows(m.tableCounts), m.retentions, m.deadRanges, Fixed(m), m.levelStats), rest))
  {
    hide DecList, EncList, DecN, EncAll, MasterOk, EncTail, Fixed;
    var c, p, d, t := EncList(CountRows(m.tableCounts), EncRow), EncList(m.retentions,
                              EncRetention), EncList(m.deadRanges, EncRange), EncTail(m);
    Regroup(c, p, d, t, rest);
    ListsUndone(m, p + (d + (t + rest)), d + (t + rest), t + rest);
    TailUndone(m, rest);
  }

  lemma {:induction false} Regroup(a: Bytes, b: Bytes, c: Bytes, d: Bytes, rest: Bytes)
    ensures a + (b + (c + d)) + rest == a + (b + (c + (d + rest)))
  {
    assert c + d + rest == c + (d + rest);
    assert b + (c + d) + rest == b + (c + d + rest);
    assert a + (b + (c + d)) + rest == a + (b + (c + d) + rest);
  }

  function DecMaster(b: Bytes): Read<MasterImage> {
    if b == [] then None
    else
      var v := DecU64(b[1..]);
      if v.None? then None
      else
        var l := DecList(v.value.1, DecLevel);
        if l.None? then None
        else
          var m := DecMiddle(l.value.1);
          if m.None? || |m.value.0.fixedPart| != 9 || exists c | c in m.value.0.counts :: |c.1| != 1 then None
          else Some((Assemble(b[0], v.value.0, l.value.0, m.value.0), m.value.1))
  }

  function Assemble(format: Byte, version: nat, levels: seq<LevelImage>, m: Middle): MasterImage
    requires |m.fixedPart| == 9 && forall c | c in m.counts :: |c.1| == 1
  {
    var f := m.fixedPart;
    MasterImage(format, version, levels,
                seq(|m.counts|, i requires 0 <= i < |m.counts| => assert m.counts[i] in m.counts; (m.counts[i].0,
                  m.counts[i].1[0])),
                m.retentions, m.deadRanges, Wrap(f[0]), Wrap(f[1]), f[2..], m.levelStats)
  }

  /** The signed reading of a 64-bit number. */
  function Wrap(v: nat): Int64 { if v < TWO64 then ToInt64(v) else 0 }

  /** The master record comes back as it was written, whatever follows it. */
  lemma {:induction false} MasterRoundTrip(m: MasterImage, rest: Bytes)
    requires MasterOk(m)
    ensures DecMaster(EncMaster(m) + rest) == Some((m, rest))
  {
    hide DecList, EncList, DecN, EncAll, EncMiddle, DecMiddle, Assemble, DecU64, EncNat64;
    var b, l := EncMaster(m) + rest, EncList(m.levels, EncLevel);
    Regroup([m.format], EncNat64(m.version), l, EncMiddle(m), rest);
    assert b[0] == m.format && b[1..] == EncNat64(m.version) + (l + (EncMiddle(m) + rest));
    HeadUndone(m, l + (EncMiddle(m) + rest), EncMiddle(m) + rest);
    MiddleUndone(m, rest);
    CountsAssembled(m);
    AssembledIs(m);
  }

  lemma {:induction false} HeadUndone(m: MasterImage, a: Bytes, b: Bytes)
    requires MasterOk(m)
    ensures DecU64(EncNat64(m.version) + a) == Some((m.version, a))
    ensures DecList(EncList(m.levels, EncLevel) + b, DecLevel) == Some((m.levels, b))
  {
    NatUndone(m.version);
    forall i | 0 <= i < |m.levels| ensures Undoes(EncLevel, DecLevel, m.levels[i], m.levels[i]) {
      assert m.levels[i] in m.levels;
      LevelUndone(m.levels[i]);
    }
    ListUndone(m.levels, m.levels, EncLevel, DecLevel, b);
  }

  lemma {:induction false} CountsAssembled(m: MasterImage)
    requires MasterOk(m)
    ensures |Fixed(m)| == 9 && forall c | c in CountRows(m.tableCounts) :: |c.1| == 1
  {
  }

  lemma {:induction false} AssembledIs(m: MasterImage)
    requires MasterOk(m) && |Fixed(m)| == 9 && forall c | c in CountRows(m.tableCounts) :: |c.1| == 1
    ensures Assemble(m.format, m.version, m.levels,
                     Middle(CountRows(m.tableCounts), m.retentions, m.deadRanges, Fixed(m), m.levelStats)) == m
  {
    var r := Assemble(m.format, m.version, m.levels,
                      Middle(CountRows(m.tableCounts), m.retentions, m.deadRanges, Fixed(m), m.levelStats));
    assert r.tableCounts == m.tableCounts;
    assert Fixed(m)[2..] == m.totals;
  }

  // ----- maps

  /** The map a list of pairs describes, as deserialize builds it. */
  function MapOf<K, V>(ps: seq<(K, V)>): map<K, V> {
    if ps == [] then map[] else MapOf(ps[..|ps| - 1])[ps[|ps| - 1].0 := ps[|ps| - 1].1]
  }

  /** Whatever order a map is written in, the same map is read back. */
  lemma {:induction false} OrderDoesNotMatter<K, V>(m: map<K, V>, ps: seq<(K, V)>)
    requires forall i, j | 0 <= i < j < |ps| :: ps[i].0 != ps[j].0
    requires forall k, v :: (k, v) in ps <==> k in m && m[k] == v
    ensures MapOf(ps) == m
  {
    MapOfMembers(ps);
    forall k | k in m ensures k in MapOf(ps) && MapOf(ps)[k] == m[k] { assert (k, m[k]) in ps; }
    forall k | k in MapOf(ps) ensures k in m {
      var v := MapOf(ps)[k];
      MapOfHas(ps, k, v);
    }
  }

  lemma {:induction false} MapOfHas<K, V>(ps: seq<(K, V)>, k: K, v: V)
    requires k in MapOf(ps) && MapOf(ps)[k] == v
    ensures (k, v) in ps
  {
    var n := |ps| - 1;
    if ps[n] != (k, v) {
      assert ps[n].0 != k;
      MapOfHas(ps[..n], k, v);
    }
  }

  lemma {:induction false} MapOfMembers<K, V>(ps: seq<(K, V)>)
    requires forall i, j | 0 <= i < j < |ps| :: ps[i].0 != ps[j].0
    ensures forall k, v :: (k, v) in ps <==> k in MapOf(ps) && MapOf(ps)[k] == v
  {
    if ps != [] {
      var n := |ps| - 1;
      MapOfMembers(ps[..n]);
      assert ps == ps[..n] + [ps[n]];
      forall k, v ensures (k, v) in ps <==> k in MapOf(ps) && MapOf(ps)[k] == v {
        assert (k, v) in ps <==> (k, v) in ps[..n] || (k, v) == ps[n];
        if (k, v) in ps[..n] { var i :| 0 <= i < n && ps[i] == (k, v); }
      }
    }
  }
}
