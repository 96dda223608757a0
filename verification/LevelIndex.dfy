/**
 levels/level_manager.go: the two-level index. A level is a list of segments, each with a key range
 and the table entries inside it. Registration finds the segment, inserts the table and spills into
 the next segment or a new one when the segment is full; de-registration shrinks or removes the
 segment. Seen flat, that is insertion into and removal from one ordered sequence of tables.
 */
module LevelIndex {
  import opened Bytes
  import opened KeyEncoding
  import opened LevelSpec

  /** A segment entry of the master record together with the segment its id resolves to. */
  datatype Segment = Segment(id: nat, rangeStart: Bytes, rangeEnd: Bytes, tables: Tables)

  function Flat(segs: seq<Segment>): Tables {
    if segs == [] then [] else segs[0].tables + Flat(segs[1..])
  }

  lemma {:induction false} FlatAppend(a: seq<Segment>, b: seq<Segment>)
    ensures Flat(a + b) == Flat(a) + Flat(b)
  {
    if a == [] {
      assert a + b == b;
    } else {
      var ab := a + b;
      assert ab[0] == a[0] && ab[1..] == a[1..] + b;
      FlatAppend(a[1..], b);
      var x, y, z := a[0].tables, Flat(a[1..]), Flat(b);
      assert x + (y + z) == x + y + z;
    }
  }

  /** The flat level around segment f. */
  lemma {:induction false} FlatAround(segs: seq<Segment>, f: nat)
    requires f < |segs|
    ensures Flat(segs) == Flat(segs[..f]) + segs[f].tables + Flat(segs[f + 1..])
  {
    assert segs == segs[..f] + segs[f..] && segs[f..][1..] == segs[f + 1..];
    FlatAppend(segs[..f], segs[f..]);
  }

  lemma {:induction false} FlatMembers(segs: seq<Segment>, t: TableEntry)
    ensures t in Flat(segs) <==> exists i | 0 <= i < |segs| :: t in segs[i].tables
  {
    if segs != [] {
      FlatMembers(segs[1..], t);
      if i :| 0 <= i < |segs| && t in segs[i].tables { assert i > 0 ==> t in segs[1..][i - 1].tables; }
      if i :| 0 <= i < |segs[1..]| && t in segs[1..][i].tables { assert t in segs[i + 1].tables; }
    }
  }

  // ----- validity (levels/validate.go)

  ghost predicate SegmentOk(s: Segment, max: nat) {
    && 0 < |s.tables| <= max
    && s.rangeStart == s.tables[0].rangeStart && s.rangeEnd == s.tables[|s.tables| - 1].rangeEnd
  }

  /** A level above 0: non-empty, tightly ranged, bounded segments, ascending throughout. */
  ghost predicate UpperOk(segs: seq<Segment>, max: nat, u: iset<Bytes>) {
    && (forall i | 0 <= i < |segs| :: SegmentOk(segs[i], max))
    && AllWellFormed(Flat(segs), u) && Ascending(Flat(segs))
  }

  /** Order and well-formedness by segment and position instead of flat index. */
  ghost predicate OrderedSegments(segs: seq<Segment>, u: iset<Bytes>) {
    && (forall i | 0 <= i < |segs| :: AllWellFormed(segs[i].tables, u) && Ascending(segs[i].tables))
    && (forall i, j | 0 <= i < j < |segs| ::
          forall x, y | x in segs[i].tables && y in segs[j].tables :: Precedes(x, y))
  }

  function Offset(segs: seq<Segment>, i: nat): nat
    requires i <= |segs|
  {
    |Flat(segs[..i])|
  }

  /** Where the tables of segment i stand in the flat level. */
  lemma {:induction false} AtOffset(segs: seq<Segment>, i: nat)
    requires i < |segs|
    ensures Offset(segs, i) + |segs[i].tables| <= |Flat(segs)|
    ensures forall k | 0 <= k < |segs[i].tables| :: Flat(segs)[Offset(segs, i) + k] == segs[i].tables[k]
  {
    hide Flat;
    FlatAround(segs, i);
  }

  lemma {:induction false} OffsetsGrow(segs: seq<Segment>, i: nat, j: nat)
    requires i < j < |segs|
    ensures Offset(segs, i) + |segs[i].tables| <= Offset(segs, j)
  {
    AtOffset(segs[..j], i);
    assert segs[..j][..i] == segs[..i];
  }

  lemma {:induction false} ByPosition(segs: seq<Segment>, u: iset<Bytes>)
    requires AllWellFormed(Flat(segs), u) && Ascending(Flat(segs))
    ensures OrderedSegments(segs, u)
  {
    hide Flat, Offset, Precedes, WellFormed;
    var all := Flat(segs);
    forall i | 0 <= i < |segs| ensures AllWellFormed(segs[i].tables, u) && Ascending(segs[i].tables) {
      AtOffset(segs, i);
      var o := Offset(segs, i);
      assert forall k | 0 <= k < |segs[i].tables| :: all[o + k] == segs[i].tables[k];
    }
    forall i, j, x, y | 0 <= i < j < |segs| && x in segs[i].tables && y in segs[j].tables
      ensures Precedes(x, y)
    {
      AtOffset(segs, i);
      AtOffset(segs, j);
      OffsetsGrow(segs, i, j);
      var a :| 0 <= a < |segs[i].tables| && segs[i].tables[a] == x;
      var b :| 0 <= b < |segs[j].tables| && segs[j].tables[b] == y;
      assert Precedes(all[Offset(segs, i) + a], all[Offset(segs, j) + b]);
    }
  }

  // ----- registering in a level above 0

  function Last(s: Segment): TableEntry
    requires s.tables != []
  {
    s.tables[|s.tables| - 1]
  }

  /** The test applyRegistrations makes on segment i: t starts after i - 1 and ends before i + 1. */
  predicate GoesIn(segs: seq<Segment>, t: TableEntry, i: nat)
    requires i < |segs|
  {
    && (i == 0 || Less(segs[i - 1].rangeEnd, t.rangeStart))
    && (i == |segs| - 1 || Less(t.rangeEnd, segs[i + 1].rangeStart))
  }

  /** The first segment on which the test succeeds. */
  ghost predicate FirstIn(segs: seq<Segment>, t: TableEntry, i: int) {
    0 <= i < |segs| && GoesIn(segs, t, i) && forall j | 0 <= j < i :: !GoesIn(segs, t, j)
  }

  ghost predicate NoneGoesIn(segs: seq<Segment>, t: TableEntry) { forall i | 0 <= i < |segs| :: !GoesIn(segs, t, i) }

  lemma {:induction false} FitsMember(segs: seq<Segment>, t: TableEntry, i: nat, x: TableEntry)
    requires Fits(Flat(segs), t) && i < |segs| && x in segs[i].tables
    ensures Apart(x, t) && x.id != t.id
  {
    FlatMembers(segs, x);
    var k :| 0 <= k < |Flat(segs)| && Flat(segs)[k] == x;
  }

  /** If the test fails on segment i, the table goes further right. */
  lemma {:induction false} GoesFurther(segs: seq<Segment>, t: TableEntry, i: nat, max: nat, u: iset<Bytes>)
    requires UpperOk(segs, max, u) && PrefixFree(u) && WellFormed(t, u) && Fits(Flat(segs), t)
    requires i < |segs| && (i > 0 ==> Precedes(Last(segs[i - 1]), t)) && !GoesIn(segs, t, i)
    ensures i + 1 < |segs| && Precedes(Last(segs[i]), t)
  {
    ByPosition(segs, u);
    if i > 0 { BoundsDecide(Last(segs[i - 1]), t, u); }
    assert i + 1 < |segs|;
    var next := segs[i + 1].tables[0];
    FitsMember(segs, t, i + 1, next);
    BoundsDecide(t, next, u);
    PrecedesTrans(Last(segs[i]), next, t, u);
  }

  /** If the test succeeds, everything to the left precedes the table... */
  lemma {:induction false} LeftPrecedes(segs: seq<Segment>, t: TableEntry, i: nat, max: nat, u: iset<Bytes>,
                                        x: TableEntry)
    requires UpperOk(segs, max, u) && PrefixFree(u) && WellFormed(t, u) && Fits(Flat(segs), t)
    requires i < |segs| && GoesIn(segs, t, i) && x in Flat(segs[..i])
    ensures Precedes(x, t)
  {
    hide Flat, Fits, Precedes, GoesIn, WellFormed, SegmentOk;
    ByPosition(segs, u);
    FlatMembers(segs[..i], x);
    var j :| 0 <= j < i && x in segs[..i][j].tables;
    LeftOfPrevious(segs, t, i, max, u);
    UpTo(segs, j, x, i - 1, u);
    if x != Last(segs[i - 1]) { PrecedesTrans(x, Last(segs[i - 1]), t, u); }
  }

  lemma {:induction false} LeftOfPrevious(segs: seq<Segment>, t: TableEntry, i: nat, max: nat, u: iset<Bytes>)
    requires UpperOk(segs, max, u) && PrefixFree(u) && WellFormed(t, u) && Fits(Flat(segs), t)
    requires 0 < i < |segs| && GoesIn(segs, t, i)
    ensures segs[i - 1].tables != [] && Precedes(Last(segs[i - 1]), t)
  {
    hide Flat, Fits, Precedes;
    ByPosition(segs, u);
    NonEmpty(segs, i - 1, max, u);
    FitsMember(segs, t, i - 1, Last(segs[i - 1]));
    BoundsDecide(Last(segs[i - 1]), t, u);
  }

  /** ... and everything to the right follows. */
  lemma {:induction false} RightFollows(segs: seq<Segment>, t: TableEntry, i: nat, max: nat, u: iset<Bytes>,
                                        x: TableEntry)
    requires UpperOk(segs, max, u) && PrefixFree(u) && WellFormed(t, u) && Fits(Flat(segs), t)
    requires i < |segs| && GoesIn(segs, t, i) && x in Flat(segs[i + 1..])
    ensures Precedes(t, x)
  {
    hide Flat, Fits, Precedes;
    ByPosition(segs, u);
    FlatMembers(segs[i + 1..], x);
    var j :| 0 <= j < |segs| - i - 1 && x in segs[i + 1..][j].tables;
    RightOfNext(segs, t, i, max, u);
    DownTo(segs, i + 1, i + 1 + j, x, u);
    if x != segs[i + 1].tables[0] { PrecedesTrans(t, segs[i + 1].tables[0], x, u); }
  }

  lemma {:induction false} RightOfNext(segs: seq<Segment>, t: TableEntry, i: nat, max: nat, u: iset<Bytes>)
    requires UpperOk(segs, max, u) && PrefixFree(u) && WellFormed(t, u) && Fits(Flat(segs), t)
    requires i + 1 < |segs| && GoesIn(segs, t, i)
    ensures segs[i + 1].tables != [] && Precedes(t, segs[i + 1].tables[0])
  {
    hide Flat, Fits, Precedes;
    ByPosition(segs, u);
    NonEmpty(segs, i + 1, max, u);
    FitsMember(segs, t, i + 1, segs[i + 1].tables[0]);
    BoundsDecide(t, segs[i + 1].tables[0], u);
  }

  lemma {:induction false} GoesHere(segs: seq<Segment>, t: TableEntry, i: nat, max: nat, u: iset<Bytes>)
    requires UpperOk(segs, max, u) && PrefixFree(u) && WellFormed(t, u) && Fits(Flat(segs), t)
    requires i < |segs| && GoesIn(segs, t, i)
    ensures forall x | x in Flat(segs[..i]) :: Precedes(x, t)
    ensures forall x | x in Flat(segs[i + 1..]) :: Precedes(t, x)
  {
    hide UpperOk, Fits, Flat, GoesIn, Precedes;
    forall x | x in Flat(segs[..i]) ensures Precedes(x, t) { LeftPrecedes(segs, t, i, max, u, x); }
    forall x | x in Flat(segs[i + 1..]) ensures Precedes(t, x) { RightFollows(segs, t, i, max, u, x); }
  }

  lemma {:induction false} UpTo(segs: seq<Segment>, j: nat, x: TableEntry, i: nat, u: iset<Bytes>)
    requires OrderedSegments(segs, u) && j <= i < |segs| && segs[i].tables != [] && x in segs[j].tables
    ensures x == Last(segs[i]) || Precedes(x, Last(segs[i]))
    ensures WellFormed(Last(segs[i]), u)
  {
    if j == i {
      var k :| 0 <= k < |segs[i].tables| && segs[i].tables[k] == x;
    }
  }

  lemma {:induction false} DownTo(segs: seq<Segment>, i: nat, j: nat, x: TableEntry, u: iset<Bytes>)
    requires OrderedSegments(segs, u) && i <= j < |segs| && segs[i].tables != [] && x in segs[j].tables
    ensures x == segs[i].tables[0] || Precedes(segs[i].tables[0], x)
    ensures WellFormed(segs[i].tables[0], u)
  {
    if j == i {
      var k :| 0 <= k < |segs[i].tables| && segs[i].tables[k] == x;
    }
  }

  /** A table already registered passes the test on its own segment and on none before it. */
  lemma {:induction false} GoesWhereItIs(segs: seq<Segment>, t: TableEntry, i: nat, m: nat, max: nat, u: iset<Bytes>)
    requires UpperOk(segs, max, u) && PrefixFree(u) && i <= m < |segs| && t in segs[m].tables
    ensures GoesIn(segs, t, i) <==> i == m
  {
    ByPosition(segs, u);
    var k :| 0 <= k < |segs[m].tables| && segs[m].tables[k] == t;
    if i == m {
      if i > 0 { BoundsDecide(Last(segs[i - 1]), t, u); }
      if i < |segs| - 1 { BoundsDecide(t, segs[i + 1].tables[0], u); }
    } else {
      DownTo(segs, i + 1, m, t, u);
      if t != segs[i + 1].tables[0] { BoundsDecide(segs[i + 1].tables[0], t, u); }
      RankOrderAll();
    }
  }

  /** The search for the segment a new table belongs in. */
  method FindSegmentFor(segs: seq<Segment>, t: TableEntry, ghost max: nat, ghost u: iset<Bytes>) returns (found: int)
    requires UpperOk(segs, max, u) && PrefixFree(u) && WellFormed(t, u)
    ensures if found >= 0 then FirstIn(segs, t, found) else found == -1 && NoneGoesIn(segs, t)
    ensures Fits(Flat(segs), t) && segs != [] ==> found >= 0
    ensures t in Flat(segs) ==> found >= 0 && t in segs[found].tables
  {
    ghost var fits, m := Fits(Flat(segs), t), |segs|;
    FlatMembers(segs, t);
    if t in Flat(segs) { m :| 0 <= m < |segs| && t in segs[m].tables; }
    hide UpperOk, Fits, Flat, GoesIn;
    var i := 0;
    while i < |segs|
      invariant 0 <= i <= |segs| && (t in Flat(segs) ==> i <= m)
      invariant forall j | 0 <= j < i :: !GoesIn(segs, t, j)
      invariant fits && i > 0 ==> segs[i - 1].tables != [] && Precedes(Last(segs[i - 1]), t)
      invariant fits && segs != [] ==> i < |segs|
    {
      if t in Flat(segs) { GoesWhereItIs(segs, t, i, m, max, u); }
      if GoesIn(segs, t, i) { return i; }
      if fits {
        NonEmpty(segs, i, max, u);
        GoesFurther(segs, t, i, max, u);
      }
      i := i + 1;
    }
    return -1;
  }

  lemma {:induction false} NonEmpty(segs: seq<Segment>, i: nat, max: nat, u: iset<Bytes>)
    requires UpperOk(segs, max, u) && i < |segs|
    ensures segs[i].tables != [] && SegmentOk(segs[i], max)
  {
  }

  /** The new table stands before the table at p and before none to its left. */
  ghost predicate InsertsAt(tables: Tables, t: TableEntry, p: int) {
    && 0 <= p <= |tables| && (forall i | 0 <= i < p :: !Less(t.rangeEnd, tables[i].rangeStart))
    && (p < |tables| ==> Less(t.rangeEnd, tables[p].rangeStart))
  }

  /** The search for the first table of a segment that the new one must stand before. */
  method FindInsertPoint(tables: Tables, t: TableEntry) returns (p: int)
    ensures -1 <= p < |tables| && InsertsAt(tables, t, if p >= 0 then p else |tables|)
  {
    for i := 0 to |tables|
      invariant forall j | 0 <= j < i :: !Less(t.rangeEnd, tables[j].rangeStart)
    {
      if Less(t.rangeEnd, tables[i].rangeStart) { return i; }
    }
    return -1;
  }

  datatype InsertResult = AlreadyThere | Inserted(segs: seq<Segment>) | Overlap | NoSegment

  /** At most two segments from f on, with new ids, replace those up to pos. */
  ghost predicate ReplacedAt(segs: seq<Segment>, segs': seq<Segment>, f: nat, pos: nat, n: nat, nextId: nat) {
    && f <= pos <= |segs| && n <= 2 && |segs'| == |segs| - (pos - f) + n
    && segs'[..f] == segs[..f] && segs'[f + n..] == segs[pos..]
    && forall i | f <= i < f + n :: segs'[i].id == nextId + (i - f)
  }

  ghost predicate Renewed(segs: seq<Segment>, segs': seq<Segment>, nextId: nat) {
    exists f: nat, pos: nat, n: nat :: ReplacedAt(segs, segs', f, pos, n, nextId)
  }

  lemma {:induction false} RenewedBy(segs: seq<Segment>, f: nat, newSegs: seq<Segment>, pos: nat, nextId: nat)
    requires f <= pos <= |segs| && |newSegs| <= 2 && forall i | 0 <= i < |newSegs| :: newSegs[i].id == nextId + i
    ensures Renewed(segs, segs[..f] + newSegs + segs[pos..], nextId)
  {
    var segs' := segs[..f] + newSegs + segs[pos..];
    assert segs'[f + |newSegs|..] == segs[pos..];
    assert ReplacedAt(segs, segs', f, pos, |newSegs|, nextId);
  }

  /** A segment is kept or has a new id, and ids stay distinct. */
  lemma {:induction false} RenewedIds(segs: seq<Segment>, segs': seq<Segment>, nextId: nat)
    requires Renewed(segs, segs', nextId) && forall s | s in segs :: s.id < nextId
    requires forall i, j | 0 <= i < j < |segs| :: segs[i].id != segs[j].id
    ensures forall s | s in segs' :: s in segs || nextId <= s.id < nextId + 2
    ensures forall i, j | 0 <= i < j < |segs'| :: segs'[i].id != segs'[j].id
  {
    var f: nat, pos: nat, n: nat :| ReplacedAt(segs, segs', f, pos, n, nextId);
    forall i | 0 <= i < |segs'|
      ensures i < f ==> segs'[i] == segs[i]
      ensures f + n <= i ==> segs'[i] == segs[i - f - n + pos]
      ensures f <= i < f + n ==> segs'[i].id == nextId + (i - f)
    {
      if i < f { assert segs'[..f][i] == segs[..f][i]; }
      if f + n <= i { assert segs'[f + n..][i - f - n] == segs[pos..][i - f - n]; }
    }
  }

  function MakeSegment(id: nat, tables: Tables): Segment
    requires tables != []
  {
    Segment(id, tables[0].rangeStart, tables[|tables| - 1].rangeEnd, tables)
  }

  lemma {:induction false} FirstSegment(t: TableEntry, max: nat, u: iset<Bytes>, s: Segment)
    requires WellFormed(t, u) && max >= 1 && s.tables == [t] && SegmentOk(s, max)
    ensures UpperOk([s], max, u) && Flat([s]) == InsertTable(Flat([]), t)
  {
    assert Flat([s]) == [t];
  }

  /** How a fitting table sits in its segment. */
  lemma {:induction false} InSegment(segs: seq<Segment>, f: nat, t: TableEntry, max: nat, u: iset<Bytes>)
    requires UpperOk(segs, max, u) && PrefixFree(u) && WellFormed(t, u) && Fits(Flat(segs), t) && f < |segs|
    ensures forall x | x in segs[f].tables :: x.id != t.id
    ensures forall x | x in segs[f].tables :: Less(t.rangeEnd, x.rangeStart) <==> Precedes(t, x)
    ensures forall x | x in segs[f].tables ::
              Less(t.rangeEnd, x.rangeStart) || (Precedes(x, t) && Less(x.rangeEnd, t.rangeStart))
  {
    ByPosition(segs, u);
    forall x | x in segs[f].tables
      ensures x.id != t.id
      ensures Less(t.rangeEnd, x.rangeStart) <==> Precedes(t, x)
      ensures Less(t.rangeEnd, x.rangeStart) || (Precedes(x, t) && Less(x.rangeEnd, t.rangeStart))
    {
      FitsMember(segs, t, f, x);
      BoundsDecide(t, x, u);
      BoundsDecide(x, t, u);
    }
  }

  /** The flat place of the new table: past the segments to the left and `at` tables of segment f. */
  lemma {:induction false} FlatPlace(segs: seq<Segment>, f: nat, t: TableEntry, at: nat, max: nat, u: iset<Bytes>)
    requires UpperOk(segs, max, u) && PrefixFree(u) && WellFormed(t, u) && Fits(Flat(segs), t)
    requires f < |segs| && GoesIn(segs, t, f) && at <= |segs[f].tables|
    requires forall i | 0 <= i < at :: !Less(t.rangeEnd, segs[f].tables[i].rangeStart)
    requires at < |segs[f].tables| ==> Less(t.rangeEnd, segs[f].tables[at].rangeStart)
    ensures Splits(Flat(segs), t, |Flat(segs[..f])| + at)
  {
    FlatAround(segs, f);
    GoesHere(segs, t, f, max, u);
    InSegment(segs, f, t, max, u);
    ByPosition(segs, u);
    var a, b, c := Flat(segs[..f]), segs[f].tables, Flat(segs[f + 1..]);
    forall i | 0 <= i < |b| ensures if i < at then Precedes(b[i], t) else Precedes(t, b[i]) {
      if i > at { PrecedesTrans(t, b[at], b[i], u); }
    }
    SplitsParts(a, b, c, t, at);
  }

  lemma {:induction false} SplitsParts(a: Tables, b: Tables, c: Tables, t: TableEntry, at: nat)
    requires at <= |b|
    requires forall x | x in a :: Precedes(x, t)
    requires forall i | 0 <= i < |b| :: if i < at then Precedes(b[i], t) else Precedes(t, b[i])
    requires forall x | x in c :: Precedes(t, x)
    ensures Splits(a + b + c, t, |a| + at)
  {
    var f := a + b + c;
    forall i | 0 <= i < |f| ensures if i < |a| + at then Precedes(f[i], t) else Precedes(t, f[i]) {
      if i < |a| { assert f[i] in a; }
      else if i < |a| + |b| { assert f[i] == b[i - |a|]; }
      else { assert f[i] == c[i - |a| - |b|]; }
    }
  }

  /** Whatever way the enlarged segment was spread, the flat level is the old one with t inserted. */
  lemma {:induction false} SpillCorrect(segs: seq<Segment>, f: nat, t: TableEntry, at: nat, max: nat, u: iset<Bytes>,
                     newSegs: seq<Segment>, pos: nat)
    requires UpperOk(segs, max, u) && PrefixFree(u) && WellFormed(t, u) && Fits(Flat(segs), t)
    requires f < pos <= |segs| && at <= |segs[f].tables|
    requires Splits(Flat(segs), t, |Flat(segs[..f])| + at)
    requires forall i | 0 <= i < |newSegs| :: SegmentOk(newSegs[i], max)
    requires Flat(newSegs) + Flat(segs[pos..])
             == segs[f].tables[..at] + [t] + segs[f].tables[at..] + Flat(segs[f + 1..])
    ensures UpperOk(segs[..f] + newSegs + segs[pos..], max, u)
    ensures Flat(segs[..f] + newSegs + segs[pos..]) == InsertTable(Flat(segs), t)
  {
    hide Flat, InsertTable, Splits, Precedes, Fits, SegmentOk;
    var r := segs[..f] + newSegs + segs[pos..];
    var all, p := Flat(segs), |Flat(segs[..f])| + at;
    SpillFlat(segs, f, t, at, newSegs, pos);
    SplitInsert(all, t, p, u);
    InsertedAscending(all, t, p);
    InsertMembers(all, t);
    SegmentsOk(segs, f, max, u, newSegs, pos);
    forall i | 0 <= i < |Flat(r)| ensures WellFormed(Flat(r)[i], u) {
      assert Flat(r)[i] in InsertTable(all, t);
    }
  }

  lemma {:induction false} SpillFlat(segs: seq<Segment>, f: nat, t: TableEntry, at: nat, newSegs: seq<Segment>,
                                     pos: nat)
    requires f < pos <= |segs| && at <= |segs[f].tables|
    requires Flat(newSegs) + Flat(segs[pos..])
             == segs[f].tables[..at] + [t] + segs[f].tables[at..] + Flat(segs[f + 1..])
    ensures var all, p := Flat(segs), |Flat(segs[..f])| + at;
            p <= |all| && Flat(segs[..f] + newSegs + segs[pos..]) == all[..p] + [t] + all[p..]
  {
    hide Flat;
    var a, b, c := Flat(segs[..f]), segs[f].tables, Flat(segs[f + 1..]);
    FlatAround(segs, f);
    FlatAppend(segs[..f] + newSegs, segs[pos..]);
    FlatAppend(segs[..f], newSegs);
    InsertedBetween(a, b, c, t, at);
    assert a + Flat(newSegs) + Flat(segs[pos..]) == a + (Flat(newSegs) + Flat(segs[pos..]));
  }

  lemma {:induction false} InsertedBetween(a: Tables, b: Tables, c: Tables, t: TableEntry, at: nat)
    requires at <= |b|
    ensures var all, p := a + b + c, |a| + at;
            a + (b[..at] + [t] + b[at..] + c) == all[..p] + [t] + all[p..]
  {
    var all, p := a + b + c, |a| + at;
    assert all[..p] == a + b[..at] && all[p..] == b[at..] + c;
  }

  lemma {:induction false} SegmentsOk(segs: seq<Segment>, f: nat, max: nat, u: iset<Bytes>, newSegs: seq<Segment>,
                                      pos: nat)
    requires UpperOk(segs, max, u) && f <= pos <= |segs|
    requires forall i | 0 <= i < |newSegs| :: SegmentOk(newSegs[i], max)
    ensures var r := segs[..f] + newSegs + segs[pos..];
            forall i | 0 <= i < |r| :: SegmentOk(r[i], max)
  {
  }

  /** The three ways to spread an enlarged segment: keep it, fill the next one, or open a new one. */
  lemma {:induction false} SpillShapes(tables: Tables, next: Tables, id: nat)
    requires tables != []
    ensures Flat([MakeSegment(id, tables)]) == tables
    ensures |tables| > 1 ==> var n := |tables|;
              && Flat([MakeSegment(id, tables[..n - 1]), MakeSegment(id + 1, tables[n - 1..])]) == tables
              && Flat([MakeSegment(id, tables[..n - 1]), MakeSegment(id + 1, [tables[n - 1]] + next)]) == tables + next
  {
    FlatOne(MakeSegment(id, tables));
    if |tables| > 1 {
      var n := |tables|;
      FlatTwo(MakeSegment(id, tables[..n - 1]), MakeSegment(id + 1, tables[n - 1..]));
      FlatTwo(MakeSegment(id, tables[..n - 1]), MakeSegment(id + 1, [tables[n - 1]] + next));
      assert tables == tables[..n - 1] + tables[n - 1..] == tables[..n - 1] + [tables[n - 1]];
    }
  }

  lemma {:induction false} FlatOne(s: Segment)
    ensures Flat([s]) == s.tables
  {
    assert Flat([s]) == s.tables + Flat([]);
  }

  lemma {:induction false} FlatTwo(s: Segment, t: Segment)
    ensures Flat([s, t]) == s.tables + t.tables
  {
    assert [s, t] == [s] + [t];
    FlatAppend([s], [t]);
    FlatOne(s);
    FlatOne(t);
  }

  // ----- tables that do not fit

  /** The stored ranges meet. */
  predicate StoredOverlap(x: TableEntry, t: TableEntry) {
    !Less(x.rangeEnd, t.rangeStart) && !Less(t.rangeEnd, x.rangeStart)
  }

  /** The test for overlap: only where the new table stands before some table, and only with the one before that. */
  ghost predicate Detected(tables: Tables, t: TableEntry) {
    exists p | 0 < p < |tables| :: InsertsAt(tables, t, p) && !Less(tables[p - 1].rangeEnd, t.rangeStart)
  }

  lemma {:induction false} InsertsAtUnique(tables: Tables, t: TableEntry, p: int, q: int)
    requires InsertsAt(tables, t, p) && InsertsAt(tables, t, q)
    ensures p == q
  {
  }

  /** Along an ascending run stored ranges ascend. */
  lemma {:induction false} StoredAscend(ts: Tables, i: nat, j: nat, u: iset<Bytes>)
    requires PrefixFree(u) && AllWellFormed(ts, u) && Ascending(ts) && i < j < |ts|
    ensures Less(ts[i].rangeEnd, ts[j].rangeStart) && Less(ts[i].rangeStart, ts[j].rangeStart)
    ensures Less(ts[i].rangeEnd, ts[j].rangeEnd)
  {
    BoundsDecide(ts[i], ts[j], u);
  }

  /** Of the tables before the place of t, the last one ends last: t meets any of them only if it meets that one. */
  lemma {:induction false} MeetsLast(ts: Tables, t: TableEntry, p: nat, i: nat, u: iset<Bytes>)
    requires PrefixFree(u) && AllWellFormed(ts, u) && Ascending(ts) && InsertsAt(ts, t, p) && i < |ts|
    ensures StoredOverlap(ts[i], t) ==> i < p && StoredOverlap(ts[p - 1], t)
    ensures i == p - 1 ==> (StoredOverlap(ts[i], t) <==> !Less(ts[i].rangeEnd, t.rangeStart))
  {
    hide Less, WellFormed, Precedes;
    if i > p {
      StoredAscend(ts, p, i, u);
      LessThrough(t.rangeEnd, ts[p].rangeStart, ts[i].rangeStart);
    } else if i < p - 1 {
      StoredAscend(ts, i, p - 1, u);
      if Less(ts[p - 1].rangeEnd, t.rangeStart) {
        LessThrough(ts[i].rangeEnd, ts[p - 1].rangeEnd, t.rangeStart);
      }
    }
  }

  lemma {:induction false} LessThrough(a: Bytes, b: Bytes, c: Bytes)
    ensures Less(a, b) && LessEq(b, c) ==> Less(a, c)
    ensures LessEq(a, b) && Less(b, c) ==> Less(a, c)
  {
    RankOrder(a, b);
    RankOrder(b, c);
    RankOrder(a, c);
  }

  /** The test finds an overlap exactly if there is one and it is not with the last table. */
  lemma {:induction false} DetectedIff(ts: Tables, t: TableEntry, p: nat, u: iset<Bytes>)
    requires PrefixFree(u) && AllWellFormed(ts, u) && Ascending(ts) && InsertsAt(ts, t, p) && ts != []
    ensures Detected(ts, t) <==> (exists x | x in ts :: StoredOverlap(x, t)) && !StoredOverlap(ts[|ts| - 1], t)
    ensures Detected(ts, t) <==> 0 < p < |ts| && !Less(ts[p - 1].rangeEnd, t.rangeStart)
  {
    hide StoredOverlap, AllWellFormed, Ascending, PrefixFree;
    forall q | InsertsAt(ts, t, q) ensures q == p { InsertsAtUnique(ts, t, p, q); }
    forall i: nat | i < |ts|
      ensures StoredOverlap(ts[i], t) ==> i < p && StoredOverlap(ts[p - 1], t)
      ensures i == p - 1 ==> (StoredOverlap(ts[i], t) <==> !Less(ts[i].rangeEnd, t.rangeStart))
    {
      MeetsLast(ts, t, p, i, u);
    }
    if x :| x in ts && StoredOverlap(x, t) {
      var i :| 0 <= i < |ts| && ts[i] == x;
      assert StoredOverlap(ts[p - 1], t);
    }
    if 0 < p && StoredOverlap(ts[p - 1], t) { assert ts[p - 1] in ts; }
  }

  lemma {:induction false} InOrder(segs: seq<Segment>, max: nat, u: iset<Bytes>)
    requires UpperOk(segs, max, u)
    ensures OrderedSegments(segs, u)
  {
    hide OrderedSegments;
    ByPosition(segs, u);
  }

  /** Outside the segment it goes in, t meets nothing. */
  lemma {:induction false} MeetsOnlyHere(segs: seq<Segment>, t: TableEntry, f: nat, x: TableEntry, max: nat,
                                         u: iset<Bytes>)
    requires UpperOk(segs, max, u) && PrefixFree(u) && f < |segs| && GoesIn(segs, t, f)
    requires x in Flat(segs) && StoredOverlap(x, t)
    ensures x in segs[f].tables
  {
    hide Flat, Less, UpperOk, OrderedSegments, PrefixFree;
    FlatMembers(segs, x);
    InOrder(segs, max, u);
    var j :| 0 <= j < |segs| && x in segs[j].tables;
    if j < f {
      EndsBefore(segs, j, x, f - 1, max, u);
      LessThrough(x.rangeEnd, segs[f - 1].rangeEnd, t.rangeStart);
    } else if j > f {
      StartsAfter(segs, f + 1, j, x, max, u);
      LessThrough(t.rangeEnd, segs[f + 1].rangeStart, x.rangeStart);
    }
  }

  lemma {:induction false} EndsBefore(segs: seq<Segment>, j: nat, x: TableEntry, i: nat, max: nat, u: iset<Bytes>)
    requires UpperOk(segs, max, u) && PrefixFree(u) && OrderedSegments(segs, u)
    requires j <= i < |segs| && x in segs[j].tables
    ensures LessEq(x.rangeEnd, segs[i].rangeEnd)
  {
    hide Flat, Precedes, Less;
    NonEmpty(segs, i, max, u);
    UpTo(segs, j, x, i, u);
    var k :| 0 <= k < |segs[j].tables| && segs[j].tables[k] == x;
    if x != Last(segs[i]) { BoundsDecide(x, Last(segs[i]), u); }
  }

  lemma {:induction false} StartsAfter(segs: seq<Segment>, i: nat, j: nat, x: TableEntry, max: nat, u: iset<Bytes>)
    requires UpperOk(segs, max, u) && PrefixFree(u) && OrderedSegments(segs, u)
    requires i <= j < |segs| && x in segs[j].tables
    ensures LessEq(segs[i].rangeStart, x.rangeStart)
  {
    hide Flat, Precedes, Less;
    NonEmpty(segs, i, max, u);
    DownTo(segs, i, j, x, u);
    var k :| 0 <= k < |segs[j].tables| && segs[j].tables[k] == x;
    if x != segs[i].tables[0] { BoundsDecide(segs[i].tables[0], x, u); }
  }

  /** A table that meets nothing goes in some segment. */
  lemma {:induction false} SomewhereToGo(segs: seq<Segment>, t: TableEntry, i: nat, max: nat, u: iset<Bytes>)
    requires UpperOk(segs, max, u) && PrefixFree(u) && i < |segs| && NoneGoesIn(segs, t)
    requires i == 0 || Less(segs[i - 1].rangeEnd, t.rangeStart)
    ensures exists x | x in Flat(segs) :: StoredOverlap(x, t)
    decreases |segs| - i
  {
    hide Flat, Less, UpperOk, PrefixFree, WellFormed;
    assert !GoesIn(segs, t, i);
    NonEmpty(segs, i, max, u);
    NonEmpty(segs, i + 1, max, u);
    var last, next := Last(segs[i]), segs[i + 1].tables[0];
    FlatMembers(segs, last);
    FlatMembers(segs, next);
    if !StoredOverlap(last, t) && !StoredOverlap(next, t) {
      NextEndsLater(segs, i, max, u);
      LessThrough(last.rangeEnd, next.rangeEnd, t.rangeStart);
      SomewhereToGo(segs, t, i + 1, max, u);
    }
  }

  lemma {:induction false} NextEndsLater(segs: seq<Segment>, i: nat, max: nat, u: iset<Bytes>)
    requires UpperOk(segs, max, u) && PrefixFree(u) && i + 1 < |segs|
    requires segs[i].tables != [] && segs[i + 1].tables != []
    ensures Less(Last(segs[i]).rangeEnd, segs[i + 1].tables[0].rangeEnd)
  {
    hide Flat, UpperOk, Less;
    InOrder(segs, max, u);
    BoundsDecide(Last(segs[i]), segs[i + 1].tables[0], u);
  }

  /** What becomes of a table whose id is not in the level, whether it fits or not. */
  ghost predicate Unnoticed(segs: seq<Segment>, t: TableEntry) {
    exists f: nat :: FirstIn(segs, t, f) && segs[f].tables != [] && StoredOverlap(Last(segs[f]), t)
  }

  ghost predicate MeetsNothing(segs: seq<Segment>, t: TableEntry) {
    forall x | x in Flat(segs) :: !StoredOverlap(x, t)
  }

  /**
   A new table is inserted exactly if its stored range meets none in the level, or meets the last table
   of the segment it goes in.
   */
  lemma {:induction false} InsertedIff(segs: seq<Segment>, t: TableEntry, max: nat, u: iset<Bytes>)
    requires UpperOk(segs, max, u) && PrefixFree(u) && segs != []
    ensures NoneGoesIn(segs, t) ==> !MeetsNothing(segs, t) && !Unnoticed(segs, t)
    ensures forall f: nat | FirstIn(segs, t, f) ::
              !Detected(segs[f].tables, t) <==> MeetsNothing(segs, t) || Unnoticed(segs, t)
  {
    hide UpperOk, Flat, GoesIn, StoredOverlap, Detected;
    if NoneGoesIn(segs, t) { SomewhereToGo(segs, t, 0, max, u); }
    forall f: nat | FirstIn(segs, t, f)
      ensures !Detected(segs[f].tables, t) <==> MeetsNothing(segs, t) || Unnoticed(segs, t)
    {
      InsertedIn(segs, t, f, max, u);
      forall g: nat | FirstIn(segs, t, g) ensures g == f {}
    }
  }

  lemma {:induction false} InsertedIn(segs: seq<Segment>, t: TableEntry, f: nat, max: nat, u: iset<Bytes>)
    requires UpperOk(segs, max, u) && PrefixFree(u) && FirstIn(segs, t, f)
    ensures segs[f].tables != []
    ensures !Detected(segs[f].tables, t) <==> MeetsNothing(segs, t) || StoredOverlap(Last(segs[f]), t)
  {
    hide Flat, GoesIn, StoredOverlap, Detected, InsertsAt, UpperOk, AllWellFormed, Ascending, PrefixFree;
    NonEmpty(segs, f, max, u);
    InOrder(segs, max, u);
    var ts := segs[f].tables;
    var p := PlaceOf(ts, t);
    DetectedIff(ts, t, p, u);
    forall x | x in Flat(segs) && StoredOverlap(x, t) ensures x in ts { MeetsOnlyHere(segs, t, f, x, max, u); }
    forall x | x in ts ensures x in Flat(segs) { FlatMembers(segs, x); }
  }

  lemma {:induction false} PlaceOf(ts: Tables, t: TableEntry) returns (p: nat)
    ensures InsertsAt(ts, t, p)
  {
    p := 0;
    while p < |ts| && !Less(t.rangeEnd, ts[p].rangeStart)
      invariant p <= |ts| && forall i | 0 <= i < p :: !Less(t.rangeEnd, ts[i].rangeStart)
    {
      p := p + 1;
    }
  }

  /** One table ends with the key the other starts with, at an older version. */
  predicate SharesEndKey(x: TableEntry, t: TableEntry)
    requires HasBounds(x) && HasBounds(t)
  {
    || (Less(x.rangeEnd, t.rangeStart) && Hi(x) == Lo(t))
    || (Less(t.rangeEnd, x.rangeStart) && Hi(t) == Lo(x))
  }

  /** Tables are apart exactly if neither their stored ranges meet nor they share a key at their ends. */
  lemma {:induction false} ApartIff(x: TableEntry, t: TableEntry, u: iset<Bytes>)
    requires PrefixFree(u) && WellFormed(x, u) && WellFormed(t, u)
    ensures Apart(x, t) <==> !StoredOverlap(x, t) && !SharesEndKey(x, t)
  {
    if Apart(x, t) {
      BoundsDecide(x, t, u);
      BoundsDecide(t, x, u);
    }
    RankOrderAll();
    Trichotomy(Hi(x), Lo(t));
    Trichotomy(Hi(t), Lo(x));
    if Less(Lo(t), Hi(x)) { VersionedLess(t.rangeStart, x.rangeEnd, u); }
    if Less(Lo(x), Hi(t)) { VersionedLess(x.rangeStart, t.rangeEnd, u); }
  }

  ghost predicate SharesSomeKey(segs: seq<Segment>, t: TableEntry) {
    exists x | x in Flat(segs) :: HasBounds(x) && HasBounds(t) && SharesEndKey(x, t)
  }

  /** A new table that does not fit is inserted if it goes unnoticed, or meets nothing and shares a key at its ends. */
  lemma {:induction false} UnfitIff(segs: seq<Segment>, t: TableEntry, max: nat, u: iset<Bytes>)
    requires UpperOk(segs, max, u) && PrefixFree(u) && WellFormed(t, u) && IdUnused(segs, t)
    ensures (MeetsNothing(segs, t) || Unnoticed(segs, t)) && !Fits(Flat(segs), t)
            <==> Unnoticed(segs, t) || (MeetsNothing(segs, t) && SharesSomeKey(segs, t))
  {
    var all := Flat(segs);
    hide Flat, StoredOverlap, SharesEndKey, Apart, Unnoticed, PrefixFree;
    forall i | 0 <= i < |all|
      ensures all[i].id != t.id && HasBounds(all[i])
      ensures Apart(all[i], t) <==> !StoredOverlap(all[i], t) && !SharesEndKey(all[i], t)
    {
      assert all[i] in all;
      ApartIff(all[i], t, u);
    }
    if Unnoticed(segs, t) { var x := UnnoticedIn(segs, t); }
  }

  lemma {:induction false} UnnoticedIn(segs: seq<Segment>, t: TableEntry) returns (x: TableEntry)
    requires Unnoticed(segs, t)
    ensures x in Flat(segs) && StoredOverlap(x, t)
  {
    hide Flat, StoredOverlap;
    var f: nat :| FirstIn(segs, t, f) && segs[f].tables != [] && StoredOverlap(Last(segs[f]), t);
    x := Last(segs[f]);
    FlatMembers(segs, x);
  }

  /**
   applyRegistrations for one table in a level above 0. For a table that fits, neither the missing
   segment (a panic in the source) nor the overlap error is reached, and the flat level gains the
   table at its place; a table that is there already leaves the level alone. A table that does not fit
   is a panic, an error, or inserted like any other.
   */
  method InsertIntoSegments(segs: seq<Segment>, t: TableEntry, max: nat, nextId: nat, ghost u: iset<Bytes>)
    returns (r: InsertResult)
    requires UpperOk(segs, max, u) && PrefixFree(u) && WellFormed(t, u) && max >= 1
    ensures Fits(Flat(segs), t) ==>
              r.Inserted? && UpperOk(r.segs, max, u) && Flat(r.segs) == InsertTable(Flat(segs), t)
    ensures t in Flat(segs) ==> r == AlreadyThere
    ensures r == NoSegment <==> segs != [] && NoneGoesIn(segs, t)
    ensures forall f: nat | FirstIn(segs, t, f) :: ResultIn(segs, t, f, r) && GrowsIn(segs, f, max, r)
    ensures r.Inserted? ==> Renewed(segs, r.segs, nextId)
    ensures IdUnused(segs, t) ==> (r.Inserted? <==> MeetsNothing(segs, t) || Unnoticed(segs, t))
    ensures IdUnused(segs, t) ==> (r.Inserted? && !Fits(Flat(segs), t)
                                   <==> Unnoticed(segs, t) || (MeetsNothing(segs, t) && SharesSomeKey(segs, t)))
  {
    hide UpperOk, Fits, Flat, GoesIn, InsertTable, MeetsNothing, Unnoticed, Detected, InsertsAt, IdUnused;
    hide SharesSomeKey, Renewed, HasRoom;
    if IdUnused(segs, t) { UnfitIff(segs, t, max, u); }
    var found := FindSegmentFor(segs, t, max, u);
    if segs == [] {
      var s := MakeSegment(nextId, [t]);
      FirstSegment(t, max, u, s);
      NothingIn(t);
      RenewedBy([], 0, [s], 0, nextId);
      assert [][..0] + [s] + [][0..] == [s];
      return Inserted([s]);
    }
    InsertedIff(segs, t, max, u);
    if found == -1 { return NoSegment; }
    NonEmpty(segs, found, max, u);
    var seg := segs[found];
    ghost var fits := Fits(Flat(segs), t);
    if fits { InSegment(segs, found, t, max, u); }
    OnlyFirst(segs, t, found);
    if exists x | x in seg.tables :: x.id == t.id {
      UsedHere(segs, t, found);
      return AlreadyThere;
    }
    var p := FindInsertPoint(seg.tables, t);
    var at := if p >= 0 then p else |seg.tables|;
    DetectedAt(seg.tables, t, at);
    if p > 0 && !Less(seg.tables[p - 1].rangeEnd, t.rangeStart) { return Overlap; }
    if fits { FlatPlace(segs, found, t, at, max, u); }
    r := Spread(segs, found, t, at, max, nextId, fits, u);
  }

  /** A table whose stored range meets another's, registered beside it in a level of its own: nothing is noticed. */
  method OverlapGoesUnnoticed(x: TableEntry, t: TableEntry, max: nat, ghost u: iset<Bytes>) returns (r: InsertResult)
    requires PrefixFree(u) && WellFormed(x, u) && WellFormed(t, u) && max >= 1
    requires StoredOverlap(x, t) && x.id != t.id
    ensures r.Inserted? && Flat(r.segs) == [x, t]
  {
    var s := MakeSegment(0, [x]);
    FirstSegment(x, max, u, s);
    FlatOne(s);
    assert GoesIn([s], t, 0) && Last(s) == x;
    assert FirstIn([s], t, 0);
    assert InsertsAt([x], t, 1);
    hide UpperOk, GoesIn, Fits, Flat, StoredOverlap, InsertTable, MeetsNothing, InsertsAt, WellFormed;
    r := InsertIntoSegments([s], t, max, 1, u);
    assert ResultIn([s], t, 0, r);
  }

  /** Such tables exist: keys "b" to "d", and "c" to "e". */
  lemma {:induction false} OverlappingTables() returns (x: TableEntry, t: TableEntry, u: iset<Bytes>)
    ensures PrefixFree(u) && WellFormed(x, u) && WellFormed(t, u) && StoredOverlap(x, t) && x.id != t.id
  {
    var v: Bytes := [0, 0, 0, 0, 0, 0, 0, 0];
    u := iset{[98], [99], [100], [101]};
    x := TableEntry("x", [98] + v, [100] + v, 0, 0, 0.0, 0, 0);
    t := TableEntry("t", [99] + v, [101] + v, 0, 0, 0.0, 0, 0);
    assert NoVersion(x.rangeStart) == [98] && NoVersion(x.rangeEnd) == [100];
    assert NoVersion(t.rangeStart) == [99] && NoVersion(t.rangeEnd) == [101];
  }

  ghost predicate IdUnused(segs: seq<Segment>, t: TableEntry) { forall x | x in Flat(segs) :: x.id != t.id }

  /** The result where the search for a segment ends at f. */
  ghost predicate ResultIn(segs: seq<Segment>, t: TableEntry, f: nat, r: InsertResult)
    requires f < |segs|
  {
    var ts := segs[f].tables;
    if HasId(ts, t.id) then r == AlreadyThere
    else if Detected(ts, t) then r == Overlap
    else r.Inserted? && exists p | InsertsAt(ts, t, p) :: InsertedAt(segs, f, p, t, r.segs)
  }

  /** A segment comes in addition only where neither the one found nor the next has room. */
  ghost predicate GrowsIn(segs: seq<Segment>, f: nat, max: nat, r: InsertResult)
    requires f < |segs|
  {
    r.Inserted? ==> |r.segs| == |segs| + if HasRoom(segs, f, max) then 0 else 1
  }

  /** The flat level has the table besides at this place. */
  ghost predicate InsertedAt(segs: seq<Segment>, f: nat, at: int, t: TableEntry, segs': seq<Segment>)
    requires f < |segs|
  {
    var q := |Flat(segs[..f])| + at;
    0 <= q <= |Flat(segs)| && Flat(segs') == Flat(segs)[..q] + [t] + Flat(segs)[q..]
  }

  lemma {:induction false} OnlyFirst(segs: seq<Segment>, t: TableEntry, f: nat)
    requires FirstIn(segs, t, f)
    ensures forall g: nat | FirstIn(segs, t, g) :: g == f
  {
  }

  lemma {:induction false} UsedHere(segs: seq<Segment>, t: TableEntry, f: nat)
    requires f < |segs| && exists x | x in segs[f].tables :: x.id == t.id
    ensures HasId(segs[f].tables, t.id) && !IdUnused(segs, t)
  {
    var x :| x in segs[f].tables && x.id == t.id;
    FlatMembers(segs, x);
  }

  lemma {:induction false} DetectedAt(ts: Tables, t: TableEntry, p: nat)
    requires InsertsAt(ts, t, p)
    ensures Detected(ts, t) <==> 0 < p < |ts| && !Less(ts[p - 1].rangeEnd, t.rangeStart)
  {
    forall q | InsertsAt(ts, t, q) ensures q == p { InsertsAtUnique(ts, t, p, q); }
  }

  lemma {:induction false} NothingIn(t: TableEntry)
    ensures t !in Flat([]) && MeetsNothing([], t)
  {
  }

  /** The segment, or the one after it, is not full. */
  predicate HasRoom(segs: seq<Segment>, f: nat, max: nat)
    requires f < |segs|
  {
    |segs[f].tables| < max || (f + 1 < |segs| && |segs[f + 1].tables| < max)
  }

  /** The segments that replace segment f once t is inserted at position `at` of it. */
  method Spread(segs: seq<Segment>, f: nat, t: TableEntry, at: nat, max: nat, nextId: nat, ghost fits: bool,
                ghost u: iset<Bytes>)
    returns (r: InsertResult)
    requires UpperOk(segs, max, u) && PrefixFree(u) && WellFormed(t, u) && max >= 1
    requires f < |segs| && 0 < |segs[f].tables| <= max && at <= |segs[f].tables|
    requires fits ==> Fits(Flat(segs), t) && Splits(Flat(segs), t, |Flat(segs[..f])| + at)
    ensures r.Inserted? && InsertedAt(segs, f, at, t, r.segs) && Renewed(segs, r.segs, nextId)
    ensures |r.segs| == |segs| + if HasRoom(segs, f, max) then 0 else 1
    ensures fits ==> UpperOk(r.segs, max, u) && Flat(r.segs) == InsertTable(Flat(segs), t)
  {
    hide UpperOk, Fits, Flat, InsertTable, Splits, WellFormed, PrefixFree, InsertedAt, Renewed, SegmentOk;
    var tables := segs[f].tables[..at] + [t] + segs[f].tables[at..];
    var newSegs, pos := Refill(segs, f, tables, max, nextId, u);
    r := Inserted(segs[..f] + newSegs + segs[pos..]);
    SpillAt(segs, f, t, at, newSegs, pos);
    RenewedBy(segs, f, newSegs, pos, nextId);
    if fits { SpillCorrect(segs, f, t, at, max, u, newSegs, pos); }
  }

  /** The new segments for the tables of segment f, of which there is one more: newSegs replace those up to pos. */
  method Refill(segs: seq<Segment>, f: nat, tables: Tables, max: nat, nextId: nat, ghost u: iset<Bytes>)
    returns (newSegs: seq<Segment>, pos: nat)
    requires UpperOk(segs, max, u) && max >= 1 && f < |segs| && 1 < |tables| == |segs[f].tables| + 1 <= max + 1
    ensures f < pos <= |segs| && 1 <= |newSegs| <= 2
    ensures |newSegs| == pos - f + if HasRoom(segs, f, max) then 0 else 1
    ensures Flat(newSegs) + Flat(segs[pos..]) == tables + Flat(segs[f + 1..])
    ensures forall i | 0 <= i < |newSegs| :: newSegs[i].id == nextId + i && SegmentOk(newSegs[i], max)
  {
    hide UpperOk, Flat;
    var n := |tables|;
    pos := f + 1;
    if n > max {
      if f < |segs| - 1 && |segs[f + 1].tables| < max {
        newSegs := [MakeSegment(nextId, tables[..n - 1]),
          MakeSegment(nextId + 1, [tables[n - 1]] + segs[f + 1].tables)];
        pos := f + 2;
        FlatNext(segs, f + 1);
        SpillShapes(tables, segs[f + 1].tables, nextId);
        NonEmpty(segs, f + 1, max, u);
      } else {
        newSegs := [MakeSegment(nextId, tables[..n - 1]), MakeSegment(nextId + 1, tables[n - 1..])];
        SpillShapes(tables, [], nextId);
      }
    } else {
      newSegs := [MakeSegment(nextId, tables)];
      SpillShapes(tables, [], nextId);
    }
  }

  lemma {:induction false} SpillAt(segs: seq<Segment>, f: nat, t: TableEntry, at: nat, newSegs: seq<Segment>, pos: nat)
    requires f < pos <= |segs| && at <= |segs[f].tables|
    requires Flat(newSegs) + Flat(segs[pos..])
             == segs[f].tables[..at] + [t] + segs[f].tables[at..] + Flat(segs[f + 1..])
    ensures InsertedAt(segs, f, at, t, segs[..f] + newSegs + segs[pos..])
  {
    hide Flat;
    SpillFlat(segs, f, t, at, newSegs, pos);
  }

  lemma {:induction false} FlatNext(segs: seq<Segment>, i: nat)
    requires i < |segs|
    ensures Flat(segs[i..]) == segs[i].tables + Flat(segs[i + 1..])
  {
    assert segs[i..][1..] == segs[i + 1..];
  }

  // ----- de-registering in a level above 0

  /** The search for the segment whose range contains the table's; t is the registered table, if any. */
  method FindSegmentOf(segs: seq<Segment>, keyStart: Bytes, keyEnd: Bytes, ghost t: TableEntry, ghost max: nat,
                       ghost u: iset<Bytes>)
    returns (found: int)
    requires UpperOk(segs, max, u) && PrefixFree(u)
    requires t.rangeStart == keyStart && t.rangeEnd == keyEnd
    ensures -1 <= found < |segs|
    ensures t in Flat(segs) ==> found >= 0 && t in segs[found].tables
  {
    ghost var m := |segs|;
    FlatMembers(segs, t);
    if t in Flat(segs) { m :| 0 <= m < |segs| && t in segs[m].tables; }
    hide UpperOk, Flat;
    for i := 0 to |segs|
      invariant t in Flat(segs) ==> i <= m
    {
      if t in Flat(segs) { RangeOnlyIn(segs, t, i, m, max, u); }
      if !Less(keyStart, segs[i].rangeStart) && !Less(segs[i].rangeEnd, keyEnd) { return i; }
    }
    return -1;
  }

  lemma {:induction false} RangeOnlyIn(segs: seq<Segment>, t: TableEntry, i: nat, m: nat, max: nat, u: iset<Bytes>)
    requires UpperOk(segs, max, u) && PrefixFree(u) && i <= m < |segs| && t in segs[m].tables
    ensures !Less(t.rangeStart, segs[i].rangeStart) && !Less(segs[i].rangeEnd, t.rangeEnd) <==> i == m
  {
    hide Flat, Precedes;
    ByPosition(segs, u);
    NonEmpty(segs, i, max, u);
    NonEmpty(segs, m, max, u);
    if i == m {
      DownTo(segs, i, m, t, u);
      UpTo(segs, m, t, i, u);
      if t != segs[i].tables[0] { BoundsDecide(segs[i].tables[0], t, u); }
      if t != Last(segs[i]) { BoundsDecide(t, Last(segs[i]), u); }
      LessIrreflexive();
    } else {
      BoundsDecide(Last(segs[i]), t, u);
    }
  }

  lemma {:induction false} LessIrreflexive()
    ensures forall a, b :: Less(a, b) ==> !Less(b, a)
  {
    RankOrderAll();
  }

  /** The position of the table id in a segment. */
  method FindTable(tables: Tables, id: TableID) returns (p: int)
    ensures -1 <= p < |tables|
    ensures p >= 0 ==> tables[p].id == id && forall i | 0 <= i < p :: tables[i].id != id
    ensures p == -1 ==> forall i | 0 <= i < |tables| :: tables[i].id != id
  {
    for i := 0 to |tables|
      invariant forall j | 0 <= j < i :: tables[j].id != id
    {
      if tables[i].id == id { return i; }
    }
    return -1;
  }

  datatype RemoveResult = NotFound | Removed(segs: seq<Segment>)

  /** What a de-registration names: a table id and the key range it was registered with. */
  datatype DeReg = DeReg(id: TableID, keyStart: Bytes, keyEnd: Bytes)

  /** The range given for a registered id is the one it has. */
  ghost predicate Names(d: DeReg, ts: Tables) {
    forall x | x in ts && x.id == d.id :: x.rangeStart == d.keyStart && x.rangeEnd == d.keyEnd
  }

  ghost predicate HasId(ts: Tables, id: TableID) {
    exists x | x in ts :: x.id == id
  }

  /**
   applyDeRegistrations for one table in a level above 0: the flat level loses the table; if it is
   not there, nothing happens.
   */
  method RemoveFromSegments(segs: seq<Segment>, d: DeReg, max: nat, nextId: nat, ghost u: iset<Bytes>)
    returns (r: RemoveResult)
    requires UpperOk(segs, max, u) && PrefixFree(u) && DistinctIds(Flat(segs)) && Names(d, Flat(segs))
    ensures r.Removed? <==> HasId(Flat(segs), d.id)
    ensures r.Removed? ==> UpperOk(r.segs, max, u) && Flat(r.segs) == RemoveTable(Flat(segs), d.id)
    ensures r.Removed? ==> Renewed(segs, r.segs, nextId)
    ensures r.NotFound? ==> RemoveTable(Flat(segs), d.id) == Flat(segs)
  {
    hide UpperOk, Flat, RemoveTable, Renewed;
    ghost var t := TableEntry(d.id, d.keyStart, d.keyEnd, 0, 0, 0.0, 0, 0);
    if HasId(Flat(segs), d.id) { t :| t in Flat(segs) && t.id == d.id; }
    else { AbsentId(Flat(segs), d.id); }
    var found := FindSegmentOf(segs, d.keyStart, d.keyEnd, t, max, u);
    if found == -1 { return NotFound; }
    var seg := segs[found];
    var pos := FindTable(seg.tables, d.id);
    SegmentMembers(segs, found);
    if pos == -1 { return NotFound; }
    var tables := seg.tables[..pos] + seg.tables[pos + 1..];
    var newSegs := if tables == [] then [] else [MakeSegment(nextId, tables)];
    r := Removed(segs[..found] + newSegs + segs[found + 1..]);
    RenewedBy(segs, found, newSegs, found + 1, nextId);
    assert seg.tables[pos] in Flat(segs);
    RemoveCorrect(segs, found, pos, max, u, newSegs, seg.tables[pos]);
  }

  lemma {:induction false} SegmentMembers(segs: seq<Segment>, f: nat)
    requires f < |segs|
    ensures forall x | x in segs[f].tables :: x in Flat(segs)
  {
    forall x | x in segs[f].tables ensures x in Flat(segs) { FlatMembers(segs, x); }
  }

  lemma {:induction false} AbsentId(ts: Tables, id: TableID)
    requires !HasId(ts, id)
    ensures RemoveTable(ts, id) == ts
  {
    assert forall i | 0 <= i < |ts| :: ts[i] in ts;
    RemoveAbsent(ts, id);
  }

  lemma {:induction false} RemoveCorrect(segs: seq<Segment>, f: nat, k: nat, max: nat, u: iset<Bytes>,
                                         newSegs: seq<Segment>, t: TableEntry)
    requires UpperOk(segs, max, u) && DistinctIds(Flat(segs))
    requires f < |segs| && k < |segs[f].tables| && segs[f].tables[k] == t
    requires var tables := segs[f].tables[..k] + segs[f].tables[k + 1..];
             if tables == [] then newSegs == []
             else |newSegs| == 1 && newSegs[0] == MakeSegment(newSegs[0].id, tables)
    ensures UpperOk(segs[..f] + newSegs + segs[f + 1..], max, u)
    ensures Flat(segs[..f] + newSegs + segs[f + 1..]) == RemoveTable(Flat(segs), t.id)
  {
    hide Flat, RemoveTable, Precedes, WellFormed;
    var r := segs[..f] + newSegs + segs[f + 1..];
    var all, p := Flat(segs), Offset(segs, f) + k;
    AtOffset(segs, f);
    assert all[p] == t;
    RemoveAt(all, p);
    RemovedFlat(segs, f, k, newSegs);
    NonEmpty(segs, f, max, u);
    SegmentsOk(segs, f, max, u, newSegs, f + 1);
    RemoveAscending(all, t.id);
  }

  lemma {:induction false} RemovedFlat(segs: seq<Segment>, f: nat, k: nat, newSegs: seq<Segment>)
    requires f < |segs| && k < |segs[f].tables|
    requires var tables := segs[f].tables[..k] + segs[f].tables[k + 1..];
             if tables == [] then newSegs == [] else |newSegs| == 1 && newSegs[0].tables == tables
    ensures var all, p := Flat(segs), Offset(segs, f) + k;
            p < |all| && Flat(segs[..f] + newSegs + segs[f + 1..]) == all[..p] + all[p + 1..]
  {
    var a, b, c := Flat(segs[..f]), segs[f].tables, Flat(segs[f + 1..]);
    var all, p := Flat(segs), Offset(segs, f) + k;
    assert Flat(newSegs) == b[..k] + b[k + 1..] by {
      if newSegs != [] {
        FlatOne(newSegs[0]);
        assert newSegs == [newSegs[0]];
      }
    }
    hide Flat;
    FlatAround(segs, f);
    FlatAppend(segs[..f] + newSegs, segs[f + 1..]);
    FlatAppend(segs[..f], newSegs);
    assert all[..p] == a + b[..k] && all[p + 1..] == b[k + 1..] + c;
    assert a + (b[..k] + b[k + 1..]) + c == a + b[..k] + (b[k + 1..] + c);
  }

  // ----- level 0

  ghost predicate Hull(s: Segment) {
    && s.tables != []
    && (forall t | t in s.tables :: !Less(t.rangeStart, s.rangeStart) && !Less(s.rangeEnd, t.rangeEnd))
    && (exists t | t in s.tables :: t.rangeStart == s.rangeStart)
    && (exists t | t in s.tables :: t.rangeEnd == s.rangeEnd)
  }

  /** Level 0: at most one segment, ranged by the hull of its tables. */
  ghost predicate ZeroOk(segs: seq<Segment>, u: iset<Bytes>) {
    && |segs| <= 1 && (forall i | 0 <= i < |segs| :: Hull(segs[i]))
    && AllWellFormed(Flat(segs), u)
  }

  lemma {:induction false} ZeroSingle(segs: seq<Segment>, u: iset<Bytes>)
    requires ZeroOk(segs, u)
    ensures |segs| <= 1
  {
  }

  lemma {:induction false} OneRenewed(segs: seq<Segment>, s: Segment, nextId: nat)
    requires s.id == nextId
    ensures Renewed(segs, [s], nextId) && Renewed(segs, [], nextId)
  {
    RenewedBy(segs, 0, [s], |segs|, nextId);
    RenewedBy(segs, 0, [], |segs|, nextId);
    assert segs[..0] + [s] + segs[|segs|..] == [s] && segs[..0] + [] + segs[|segs|..] == [];
  }

  /** applyRegistrations in level 0: append, unless the id is there already. */
  method AppendToZero(segs: seq<Segment>, t: TableEntry, nextId: nat, ghost u: iset<Bytes>) returns (r: InsertResult)
    requires ZeroOk(segs, u) && WellFormed(t, u)
    ensures HasId(Flat(segs), t.id) ==> r == AlreadyThere
    ensures !HasId(Flat(segs), t.id) ==> r.Inserted? && ZeroOk(r.segs, u) && Flat(r.segs) == Flat(segs) + [t]
    ensures r.Inserted? ==> Renewed(segs, r.segs, nextId)
  {
    hide Renewed;
    LessIrreflexive();
    if segs == [] {
      var s := Segment(nextId, t.rangeStart, t.rangeEnd, [t]);
      FlatOne(s);
      OneRenewed(segs, s, nextId);
      assert t in s.tables;
      return Inserted([s]);
    }
    var s := segs[0];
    FlatOne(s);
    assert segs == [s];
    if exists x | x in s.tables :: x.id == t.id { return AlreadyThere; }
    var rangeStart := if Less(t.rangeStart, s.rangeStart) then t.rangeStart else s.rangeStart;
    var rangeEnd := if Less(s.rangeEnd, t.rangeEnd) then t.rangeEnd else s.rangeEnd;
    var s' := Segment(nextId, rangeStart, rangeEnd, s.tables + [t]);
    FlatOne(s');
    HullGrows(s, t, s');
    OneRenewed(segs, s', nextId);
    r := Inserted([s']);
  }

  lemma {:induction false} HullGrows(s: Segment, t: TableEntry, s': Segment)
    requires Hull(s) && !Less(t.rangeEnd, t.rangeStart)
    requires s'.tables == s.tables + [t]
    requires s'.rangeStart == if Less(t.rangeStart, s.rangeStart) then t.rangeStart else s.rangeStart
    requires s'.rangeEnd == if Less(s.rangeEnd, t.rangeEnd) then t.rangeEnd else s.rangeEnd
    ensures Hull(s')
  {
    RankOrderAll();
    var a :| a in s.tables && a.rangeStart == s.rangeStart;
    var b :| b in s.tables && b.rangeEnd == s.rangeEnd;
    assert a in s'.tables && b in s'.tables && t in s'.tables;
  }

  /** The scan over the remaining level 0 tables for their overall range. */
  method HullOf(tables: Tables) returns (rangeStart: Bytes, rangeEnd: Bytes)
    requires tables != []
    ensures Hull(Segment(0, rangeStart, rangeEnd, tables))
  {
    rangeStart, rangeEnd := tables[0].rangeStart, tables[0].rangeEnd;
    ghost var a, b := tables[0], tables[0];
    RankOrderAll();
    for i := 0 to |tables|
      invariant a in tables && a.rangeStart == rangeStart && b in tables && b.rangeEnd == rangeEnd
      invariant forall j | 0 <= j < i :: !Less(tables[j].rangeStart, rangeStart) && !Less(rangeEnd, tables[j].rangeEnd)
    {
      if Less(tables[i].rangeStart, rangeStart) { rangeStart, a := tables[i].rangeStart, tables[i]; }
      if Less(rangeEnd, tables[i].rangeEnd) { rangeEnd, b := tables[i].rangeEnd, tables[i]; }
    }
  }

  /** applyDeRegistrations in level 0. */
  method RemoveFromZero(segs: seq<Segment>, d: DeReg, nextId: nat, ghost u: iset<Bytes>) returns (r: RemoveResult)
    requires ZeroOk(segs, u)
    ensures r.Removed? <==> HasId(Flat(segs), d.id)
    ensures r.Removed? ==> ZeroOk(r.segs, u) && Flat(r.segs) == RemoveTable(Flat(segs), d.id)
    ensures r.Removed? ==> Renewed(segs, r.segs, nextId)
    ensures r.NotFound? ==> RemoveTable(Flat(segs), d.id) == Flat(segs)
  {
    hide Flat, Hull, RemoveTable, WellFormed, Renewed;
    FlatNone();
    if segs == [] {
      AbsentId([], d.id);
      return NotFound;
    }
    var s := segs[0];
    FlatOne(s);
    assert segs == [s];
    var pos := FindTable(s.tables, d.id);
    if pos == -1 {
      RemoveAbsent(s.tables, d.id);
      return NotFound;
    }
    RemoveAt(s.tables, pos);
    var tables := s.tables[..pos] + s.tables[pos + 1..];
    assert s.tables[pos] in s.tables;
    OneRenewed(segs, Segment(nextId, [], [], []), nextId);
    if tables == [] { return Removed([]); }
    var rangeStart, rangeEnd := HullOf(tables);
    var s' := Segment(nextId, rangeStart, rangeEnd, tables);
    HullIgnoresId(Segment(0, rangeStart, rangeEnd, tables), nextId);
    FlatOne(s');
    OneRenewed(segs, s', nextId);
    r := Removed([s']);
  }

  lemma {:induction false} FlatNone()
    ensures Flat([]) == []
  {
  }

  lemma {:induction false} HullIgnoresId(s: Segment, id: nat)
    requires Hull(s)
    ensures Hull(s.(id := id))
  {
  }

  // ----- the overlap search

  /**
   getOverlappingTables: segments whose range does not overlap are skipped unread. The result is
   what a flat scan of the level gives, newest first for level 0.
   */
  method GetOverlappingTables(keyStart: Bytes, keyEnd: Option<Bytes>, level: nat, segs: seq<Segment>, ghost max: nat,
                              ghost u: iset<Bytes>)
    returns (tables: Tables)
    requires PrefixFree(u) && if level == 0 then ZeroOk(segs, u) else UpperOk(segs, max, u)
    ensures tables == Overlapping(keyStart, keyEnd, if level == 0 then Reverse(Flat(segs)) else Flat(segs))
  {
    hide Overlapping, UpperOk, ZeroOk, HasOverlap, Flat;
    tables := [];
    StartOverlap(keyStart, keyEnd, level, segs);
    if level == 0 { ZeroSingle(segs, u); }
    for i := 0 to |segs|
      invariant tables == Overlapping(keyStart, keyEnd, Scan(level, segs[..i]))
    {
      var seg := segs[i];
      var part := [];
      if HasOverlap(keyStart, keyEnd, seg.rangeStart, seg.rangeEnd) {
        part := ScanSegment(keyStart, keyEnd, level, seg.tables);
      } else {
        PrunedEmpty(keyStart, keyEnd, level, segs, i, max, u);
      }
      ScanNext(keyStart, keyEnd, level, segs, i, u);
      tables := tables + part;
    }
    assert segs[..|segs|] == segs;
  }

  function Reverse(ts: Tables): Tables {
    if ts == [] then [] else Reverse(ts[1..]) + [ts[0]]
  }

  /** The order the level is scanned in. */
  function Scan(level: nat, segs: seq<Segment>): Tables {
    if level == 0 then Reverse(Flat(segs)) else Flat(segs)
  }

  lemma {:induction false} StartOverlap(keyStart: Bytes, keyEnd: Option<Bytes>, level: nat, segs: seq<Segment>)
    ensures Overlapping(keyStart, keyEnd, Scan(level, segs[..0])) == []
  {
  }

  method ScanSegment(keyStart: Bytes, keyEnd: Option<Bytes>, level: nat, ts: Tables) returns (r: Tables)
    ensures r == Overlapping(keyStart, keyEnd, if level == 0 then Reverse(ts) else ts)
  {
    r := [];
    if level == 0 {
      var i := |ts|;
      assert ts[|ts|..] == [];
      while i > 0
        invariant 0 <= i <= |ts| && r == Overlapping(keyStart, keyEnd, Reverse(ts[i..]))
      {
        i := i - 1;
        assert ts[i..][1..] == ts[i + 1..];
        OverlappingAppend(keyStart, keyEnd, Reverse(ts[i + 1..]), [ts[i]]);
        OverlappingOne(keyStart, keyEnd, ts[i]);
        if HasOverlap(keyStart, keyEnd, ts[i].rangeStart, ts[i].rangeEnd) { r := r + [ts[i]]; }
      }
      assert ts[0..] == ts;
    } else {
      for i := 0 to |ts|
        invariant r == Overlapping(keyStart, keyEnd, ts[..i])
      {
        assert ts[..i + 1] == ts[..i] + [ts[i]];
        OverlappingAppend(keyStart, keyEnd, ts[..i], [ts[i]]);
        OverlappingOne(keyStart, keyEnd, ts[i]);
        if HasOverlap(keyStart, keyEnd, ts[i].rangeStart, ts[i].rangeEnd) { r := r + [ts[i]]; }
      }
      assert ts[..|ts|] == ts;
    }
  }

  /** Every table of a segment lies within the segment's range. */
  lemma {:induction false} SegmentCovers(level: nat, segs: seq<Segment>, i: nat, max: nat, u: iset<Bytes>,
                                         t: TableEntry)
    requires PrefixFree(u) && if level == 0 then ZeroOk(segs, u) else UpperOk(segs, max, u)
    requires i < |segs| && t in segs[i].tables
    ensures !Less(t.rangeStart, segs[i].rangeStart) && !Less(segs[i].rangeEnd, t.rangeEnd)
  {
    hide Flat;
    if level > 0 {
      ByPosition(segs, u);
      CoversAll(segs[i], max, u, t);
    }
  }

  lemma {:induction false} CoversAll(s: Segment, max: nat, u: iset<Bytes>, t: TableEntry)
    requires PrefixFree(u) && SegmentOk(s, max) && AllWellFormed(s.tables, u) && Ascending(s.tables) && t in s.tables
    ensures !Less(t.rangeStart, s.rangeStart) && !Less(s.rangeEnd, t.rangeEnd)
  {
    hide Less;
    var ts := s.tables;
    var k :| 0 <= k < |ts| && ts[k] == t;
    LessIrreflexive();
    RankOrder(s.rangeStart, t.rangeStart);
    RankOrder(t.rangeEnd, s.rangeEnd);
    if k > 0 { BoundsDecide(ts[0], t, u); }
    if k < |ts| - 1 { BoundsDecide(t, ts[|ts| - 1], u); }
  }

  lemma {:induction false} PrunedEmpty(keyStart: Bytes, keyEnd: Option<Bytes>, level: nat, segs: seq<Segment>, i: nat,
                                       max: nat, u: iset<Bytes>)
    requires PrefixFree(u) && if level == 0 then ZeroOk(segs, u) else UpperOk(segs, max, u)
    requires i < |segs| && !HasOverlap(keyStart, keyEnd, segs[i].rangeStart, segs[i].rangeEnd)
    ensures Overlapping(keyStart, keyEnd, if level == 0 then Reverse(segs[i].tables) else segs[i].tables) == []
  {
    hide HasOverlap, ZeroOk, UpperOk, TableOverlaps;
    forall t | t in segs[i].tables ensures !TableOverlaps(keyStart, keyEnd, t) {
      if TableOverlaps(keyStart, keyEnd, t) {
        SegmentCovers(level, segs, i, max, u, t);
        WiderOverlaps(keyStart, keyEnd, segs[i].rangeStart, segs[i].rangeEnd, t);
      }
    }
    ReverseMembers(segs[i].tables);
    NoneOverlap(keyStart, keyEnd, if level == 0 then Reverse(segs[i].tables) else segs[i].tables);
  }

  lemma {:induction false} NoneOverlap(keyStart: Bytes, keyEnd: Option<Bytes>, ts: Tables)
    requires forall t | t in ts :: !TableOverlaps(keyStart, keyEnd, t)
    ensures Overlapping(keyStart, keyEnd, ts) == []
  {
    if ts != [] { NoneOverlap(keyStart, keyEnd, ts[1..]); }
  }

  lemma {:induction false} ReverseAt(ts: Tables)
    ensures |Reverse(ts)| == |ts| && forall i | 0 <= i < |ts| :: Reverse(ts)[i] == ts[|ts| - 1 - i]
  {
    if ts != [] { ReverseAt(ts[1..]); }
  }

  lemma {:induction false} ReverseMembers(ts: Tables)
    ensures forall t :: t in Reverse(ts) <==> t in ts
  {
    if ts != [] { ReverseMembers(ts[1..]); }
  }

  lemma {:induction false} OverlappingOne(keyStart: Bytes, keyEnd: Option<Bytes>, t: TableEntry)
    ensures Overlapping(keyStart, keyEnd, [t]) == if TableOverlaps(keyStart, keyEnd, t) then [t] else []
  {
    assert [t][1..] == [];
  }

  lemma {:induction false} ScanNext(keyStart: Bytes, keyEnd: Option<Bytes>, level: nat, segs: seq<Segment>, i: nat,
                                    u: iset<Bytes>)
    requires i < |segs| && (level == 0 ==> |segs| <= 1)
    ensures Overlapping(keyStart, keyEnd, Scan(level, segs[..i + 1]))
            == Overlapping(keyStart, keyEnd, Scan(level, segs[..i])) + Overlapping(keyStart, keyEnd,
              if level == 0 then Reverse(segs[i].tables) else segs[i].tables)
  {
    if level == 0 {
      assert segs[..1] == [segs[0]];
      FlatOne(segs[0]);
    } else {
      hide Overlapping, Flat;
      assert segs[..i + 1] == segs[..i] + [segs[i]];
      FlatAppend(segs[..i], [segs[i]]);
      FlatOne(segs[i]);
      OverlappingAppend(keyStart, keyEnd, Flat(segs[..i]), segs[i].tables);
    }
  }
}
