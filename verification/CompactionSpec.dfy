/**
 levels/compaction.go: outstanding compaction jobs over the levels. A job takes source tables from
 one level and every table of the next level that their key range touches, and locks them all. This
 module states what holds of the levels and the outstanding jobs at any time, and proves that creating
 a job, registering a level 0 table and applying a finished job's output keep it. The consequence
 is that whatever jobs are outstanding and in whatever order they finish, the tables of each level
 above 0 stay disjoint on unversioned keys.
 */
module CompactionSpec {
  import opened Bytes
  import opened KeyEncoding
  import opened LevelSpec
  import opened LevelIndex
  import opened MasterRecord

  type JobID = string

  datatype Job = Job(id: JobID, levelFrom: nat, source: Tables, overlap: Tables, isMove: bool, preserveTombstones: bool)

  /** The tables a job locks, and later de-registers. */
  function Members(j: Job): Tables { j.source + j.overlap }

  // ----- the range a job searches

  /** Prefix-free keys, none of them all 255, so that every key has a successor of its length. */
  ghost predicate Keys(u: iset<Bytes>) { PrefixFree(u) && forall k | k in u :: CanIncrement(k) }

  /** All keys of a store: each slab partition has its own prefix, all of one length, and its own schema. */
  ghost function StoreKeys(slabs: map<Bytes, seq<ColumnType>>): iset<Bytes> {
    iset p, row: Row | p in slabs && RowHasType(row, slabs[p]) :: p + EncodeRow(row)
  }

  /** The key encoding supplies the premise of everything below. */
  lemma {:induction false} StoreKeysAreKeys(slabs: map<Bytes, seq<ColumnType>>, n: nat)
    requires forall p | p in slabs :: |p| == n && slabs[p] != []
    ensures Keys(StoreKeys(slabs))
  {
    var u := StoreKeys(slabs);
    forall a, b | a in u && b in u && IsPrefix(a, b) ensures a == b {
      var p, r: Row :| p in slabs && RowHasType(r, slabs[p]) && a == p + EncodeRow(r);
      var q, s: Row :| q in slabs && RowHasType(s, slabs[q]) && b == q + EncodeRow(s);
      IsPrefixIff(a, b);
      assert p == a[..n] && q == b[..n] && p == q;
      RowTotal(r, s, slabs[p]);
      if r != s { DistinctRowsNoPrefix(p, r, s, slabs[p]); }
    }
    forall k | k in u ensures CanIncrement(k) {
      var p, r: Row :| p in slabs && RowHasType(r, slabs[p]) && k == p + EncodeRow(r);
      FirstByte(r, slabs[p]);
      assert k[n] < 255;
    }
  }

  lemma {:induction false} FirstByte(r: Row, types: seq<ColumnType>)
    requires RowHasType(r, types) && types != []
    ensures EncodeRow(r) != [] && EncodeRow(r)[0] <= 1
  {
    assert EncodeRow(r) == EncodeValue(r[0]) + EncodeRow(r[1..]);
  }

  /** The search for overlap: from lo inclusive to just past hi. */
  ghost predicate Reaches(lo: Bytes, hi: Bytes, t: TableEntry)
    requires CanIncrement(hi)
  {
    TableOverlaps(lo, Some(Increment(hi)), t)
  }

  ghost predicate Touches(s: TableEntry, t: TableEntry, u: iset<Bytes>)
    requires Keys(u) && WellFormed(s, u)
  {
    Reaches(Lo(s), Hi(s), t)
  }

  /** A table the search does not return lies on one side of the range, by its stored bounds too. */
  lemma {:induction false} Unreached(lo: Bytes, hi: Bytes, t: TableEntry, u: iset<Bytes>)
    requires Keys(u) && lo in u && hi in u && WellFormed(t, u) && !Reaches(lo, hi, t)
    ensures Less(Hi(t), lo) || Less(hi, Lo(t))
  {
    if !Less(Hi(t), lo) && !Less(hi, Lo(t)) { OverlapSearchComplete(lo, hi, t, u); }
  }

  /** Beside a table the search returns, an unreached table of the same level is on the same side. */
  lemma {:induction false} UnreachedSide(lo: Bytes, hi: Bytes, x: TableEntry, o: TableEntry, u: iset<Bytes>)
    requires Keys(u) && lo in u && hi in u && WellFormed(x, u) && WellFormed(o, u) && !Less(hi, lo)
    requires !Reaches(lo, hi, x) && Reaches(lo, hi, o) && Apart(x, o)
    ensures Less(Hi(x), lo) ==> Precedes(x, o)
    ensures Less(hi, Lo(x)) ==> Precedes(o, x)
  {
    hide PrefixFree;
    BoundsDecide(x, o, u);
    BoundsDecide(o, x, u);
    if Less(Hi(x), lo) {
      KeyBelow(Hi(x), x.rangeEnd, lo, u);
      RankOrderAll();
    }
    if Less(hi, Lo(x)) {
      KeyAboveStart(lo, hi, x, u);
      RankOrderAll();
    }
  }

  /** A stored key is below an unversioned key of u that is above its own. */
  lemma {:induction false} KeyBelow(k: Bytes, stored: Bytes, lo: Bytes, u: iset<Bytes>)
    requires Keys(u) && |stored| >= 8 && k == NoVersion(stored) && k in u && lo in u && Less(k, lo)
    ensures Less(stored, lo)
  {
    RankOrder(k, lo);
    assert !IsPrefix(k, lo);
    LessIsStrong(k, lo);
    StrongLessAppend(k, stored[|k|..], lo, []);
    assert stored == k + stored[|k|..] && lo + [] == lo;
  }

  lemma {:induction false} KeyAboveStart(lo: Bytes, hi: Bytes, x: TableEntry, u: iset<Bytes>)
    requires Keys(u) && lo in u && hi in u && WellFormed(x, u) && !Less(hi, lo)
    requires Less(hi, Lo(x)) && !Reaches(lo, hi, x)
    ensures LessEq(Increment(hi), x.rangeStart)
  {
    assert !Less(Hi(x), lo) by { RankOrderAll(); }
    ExtensionNotLess(Hi(x), x.rangeEnd[|x.rangeEnd| - 8..], lo);
    assert x.rangeEnd == Hi(x) + x.rangeEnd[|x.rangeEnd| - 8..];
  }

  /** Between a key and its successor there are only extensions of the key and prefixes of the successor. */
  lemma {:induction false} BelowIncrement(hi: Bytes, a: Bytes)
    requires CanIncrement(hi) && Less(hi, a) && Less(a, Increment(hi))
    ensures IsPrefix(hi, a) || IsPrefix(a, Increment(hi))
  {
    var n, inc := |hi|, Increment(hi);
    if |a| >= n {
      var c := a[..n];
      assert a == c + a[n..];
      Trichotomy(hi, c);
      if Less(hi, c) {
        IncrementIsNext(hi, c);
        ExtensionNotBelow(c, a[n..], inc);
      } else if Less(c, hi) {
        SameLengthStrong(c, hi);
        StrongLessAppend(c, a[n..], hi, []);
        assert hi + [] == hi;
        RankOrderAll();
      } else {
        IsPrefixIff(hi, a);
      }
    } else if !IsPrefix(a, inc) {
      LessIsStrong(a, inc);
      var pad := seq(n - |a|, _ => 255 as Byte);
      StrongLessAppend(a, pad, inc, []);
      assert inc + [] == inc;
      if IsPrefix(hi, a) { IsPrefixIff(hi, a); }
      LessIsStrong(hi, a);
      StrongLessAppend(hi, [], a, pad);
      assert hi + [] == hi;
      IncrementIsNext(hi, a + pad);
      RankOrderAll();
    }
  }

  lemma {:induction false} ExtensionNotBelow(c: Bytes, x: Bytes, inc: Bytes)
    requires LessEq(inc, c)
    ensures !Less(c + x, inc)
  {
    RankOrderAll();
    ExtensionNotLess(c, x, inc);
  }

  /** The search never returns a table before the source. */
  lemma {:induction false} LeftExact(s: TableEntry, o: TableEntry, u: iset<Bytes>)
    requires Keys(u) && WellFormed(s, u) && WellFormed(o, u) && Precedes(o, s)
    ensures !Touches(s, o, u)
  {
    KeyBelow(Hi(o), o.rangeEnd, Lo(s), u);
  }

  /** Nor one with another table between it and the source. */
  lemma {:induction false} RightExact(s: TableEntry, x: TableEntry, o: TableEntry, u: iset<Bytes>)
    requires Keys(u) && WellFormed(s, u) && WellFormed(x, u) && WellFormed(o, u)
    requires Precedes(s, x) && Precedes(x, o)
    ensures !Touches(s, o, u)
  {
    if Touches(s, o, u) {
      hide PrefixFree;
      var hi, inc := Hi(s), Increment(Hi(s));
      LoBelow(x, o, u);
      AboveHi(hi, Lo(x), x.rangeStart, u);
      AboveHi(hi, Lo(o), o.rangeStart, u) by { RankOrderAll(); }
      assert Less(o.rangeStart, inc) by { RankOrderAll(); }
      VersionedLess(x.rangeStart, o.rangeStart, u);
      assert Less(x.rangeStart, inc) by { RankOrderAll(); }
      BelowIncrement(hi, x.rangeStart);
      BelowIncrement(hi, o.rangeStart);
      SharedPrefix(x, o, inc, u);
    }
  }

  lemma {:induction false} LoBelow(x: TableEntry, o: TableEntry, u: iset<Bytes>)
    requires WellFormed(x, u) && WellFormed(o, u) && Precedes(x, o)
    ensures Less(Lo(x), Lo(o))
  {
    RankOrderAll();
  }

  lemma {:induction false} AboveHi(hi: Bytes, k: Bytes, stored: Bytes, u: iset<Bytes>)
    requires Keys(u) && hi in u && k in u && |stored| >= 8 && k == NoVersion(stored) && Less(hi, k)
    ensures Less(hi, stored) && !IsPrefix(hi, stored)
  {
    RankOrder(hi, k);
    assert !IsPrefix(hi, k);
    LessIsStrong(hi, k);
    StrongLessAppend(hi, [], k, stored[|k|..]);
    assert hi + [] == hi && stored == k + stored[|k|..];
    StrongLessNoPrefix(hi, stored);
  }

  lemma {:induction false} SharedPrefix(x: TableEntry, o: TableEntry, inc: Bytes, u: iset<Bytes>)
    requires Keys(u) && WellFormed(x, u) && WellFormed(o, u) && Less(Lo(x), Lo(o))
    ensures !(IsPrefix(x.rangeStart, inc) && IsPrefix(o.rangeStart, inc))
  {
    if IsPrefix(x.rangeStart, inc) && IsPrefix(o.rangeStart, inc) {
      IsPrefixIff(x.rangeStart, inc);
      IsPrefixIff(o.rangeStart, inc);
      var a, b := Lo(x), Lo(o);
      assert a == inc[..|a|] && b == inc[..|b|];
      if |a| <= |b| { IsPrefixIff(a, b); } else { IsPrefixIff(b, a); }
      RankOrder(a, b);
    }
  }

  /** The table's smallest stored key is cut off from the end of the search. */
  ghost predicate StartsWithinEnd(s: TableEntry, o: TableEntry, u: iset<Bytes>)
    requires Keys(u) && WellFormed(s, u)
  {
    IsPrefix(o.rangeStart, Increment(Hi(s))) && o.rangeStart != Increment(Hi(s))
  }

  /** A table just after the source is returned exactly if its first stored key is a proper prefix of the end. */
  lemma {:induction false} RightTouch(s: TableEntry, o: TableEntry, u: iset<Bytes>)
    requires Keys(u) && WellFormed(s, u) && WellFormed(o, u) && Precedes(s, o)
    ensures Touches(s, o, u) <==> StartsWithinEnd(s, o, u)
  {
    var hi, inc := Hi(s), Increment(Hi(s));
    AboveHi(hi, Lo(o), o.rangeStart, u);
    assert Touches(s, o, u) <==> Less(o.rangeStart, inc) by {
      EndsAfter(s, o, u);
      RankOrderAll();
    }
    RankOrder(inc, inc);
    if Touches(s, o, u) { BelowIncrement(hi, o.rangeStart); }
    if StartsWithinEnd(s, o, u) { ProperPrefixLess(o.rangeStart, inc); }
  }

  lemma {:induction false} ProperPrefixLess(a: Bytes, b: Bytes)
    requires IsPrefix(a, b) && a != b
    ensures Less(a, b)
  {
    if a != [] {
      assert a == [a[0]] + a[1..] && b == [b[0]] + b[1..];
      ProperPrefixLess(a[1..], b[1..]);
    }
  }

  lemma {:induction false} EndsAfter(s: TableEntry, o: TableEntry, u: iset<Bytes>)
    requires Keys(u) && WellFormed(s, u) && WellFormed(o, u) && Precedes(s, o)
    ensures !Less(o.rangeEnd, Lo(s))
  {
    assert !Less(Hi(o), Lo(s)) by { RankOrderAll(); }
    assert o.rangeEnd == Hi(o) + o.rangeEnd[|Hi(o)|..];
    ExtensionNotLess(Hi(o), o.rangeEnd[|Hi(o)|..], Lo(s));
  }

  /** The version at the end of a table's smallest stored key. */
  function FirstVersion(t: TableEntry): UInt64
    requires HasBounds(t)
  {
    MAX_UINT64 - DecodeUint64(t.rangeStart[|t.rangeStart| - 8..])
  }

  /** Where a string and its successor part, and that the successor goes on with zeros. */
  lemma {:induction false} IncrementShape(b: Bytes) returns (i: nat)
    requires CanIncrement(b)
    ensures i < |b| && Increment(b)[..i] == b[..i]
    ensures forall k | i < k < |b| :: Increment(b)[k] == 0
  {
    var n := |b| - 1;
    if b[n] < 255 {
      i := n;
    } else {
      var j :| 0 <= j < |b| && b[j] < 255;
      assert b[..n][j] < 255;
      i := IncrementShape(b[..n]);
      assert Increment(b)[..i] == Increment(b[..n])[..i] == b[..n][..i];
    }
  }

  lemma {:induction false} ZerosDecode(b: Bytes)
    requires forall k | 0 <= k < |b| :: b[k] == 0
    ensures FromBigEndian(b) == 0
  {
    if b != [] { ZerosDecode(b[..|b| - 1]); }
  }

  /** Only a table whose first key has the largest version can be returned without overlapping. */
  lemma {:induction false} OnlyLargestVersion(s: TableEntry, o: TableEntry, u: iset<Bytes>)
    requires Keys(u) && WellFormed(s, u) && WellFormed(o, u) && Precedes(s, o) && StartsWithinEnd(s, o, u)
    ensures FirstVersion(o) == MAX_UINT64
  {
    var hi, inc, start := Hi(s), Increment(Hi(s)), o.rangeStart;
    var i := IncrementShape(hi);
    var n := |Lo(o)|;
    IsPrefixIff(start, inc);
    assert Lo(o) == inc[..n];
    if n <= i {
      assert Lo(o) == hi[..n];
      IsPrefixIff(Lo(o), hi);
      RankOrder(hi, hi);
      assert false;
    }
    assert forall k | 0 <= k < 8 :: start[n..][k] == inc[n + k] == 0;
    ZerosDecode(start[n..]);
  }

  /** What the search returns: what overlaps the source, and that table just after it. */
  lemma {:induction false} TouchesExactly(s: TableEntry, o: TableEntry, u: iset<Bytes>)
    requires Keys(u) && WellFormed(s, u) && WellFormed(o, u)
    ensures Touches(s, o, u) <==> !Apart(s, o) || (Precedes(s, o) && StartsWithinEnd(s, o, u))
    ensures FirstVersion(o) < MAX_UINT64 ==> (Touches(s, o, u) <==> !Apart(s, o))
  {
    hide PrefixFree, StartsWithinEnd, FirstVersion;
    if Precedes(s, o) {
      RightTouch(s, o, u);
      if StartsWithinEnd(s, o, u) { OnlyLargestVersion(s, o, u); }
    } else if Precedes(o, s) {
      LeftExact(s, o, u);
    } else {
      OverlapSearchComplete(Lo(s), Hi(s), o, u);
    }
  }

  /** A table that follows the source and is returned all the same: keys [1, 255, ...] and [2]. */
  lemma {:induction false} SearchReturnsNeighbour(s: TableEntry, o: TableEntry)
    requires var hi := [1] + seq(9, _ => 255); s.rangeStart == s.rangeEnd == hi + seq(8, _ => 0)
    requires o.rangeStart == o.rangeEnd == [2] + seq(8, _ => 0)
    ensures var u := iset{[1] + seq(9, _ => 255), [2]};
            Keys(u) && WellFormed(s, u) && WellFormed(o, u) && Precedes(s, o) && Touches(s, o, u)
  {
    var hi: Bytes, lo: Bytes := [1] + seq(9, _ => 255), [2];
    var u := iset{hi, lo};
    assert CanIncrement(hi) by { assert hi[0] < 255; }
    assert CanIncrement(lo) by { assert lo[0] < 255; }
    assert Lo(s) == hi && Hi(s) == hi && Lo(o) == lo && Hi(o) == lo;
    RankOrder(hi, hi);
    RankOrder(lo, lo);
    RankOrder(s.rangeStart, s.rangeStart);
    RankOrder(o.rangeStart, o.rangeStart);
    Carries([1], 9);
    assert Increment(hi) == [2] + seq(9, _ => 0);
    IsPrefixIff(o.rangeStart, Increment(hi));
    RightTouch(s, o, u);
  }

  lemma {:induction false} Carries(b: Bytes, n: nat)
    requires CanIncrement(b)
    ensures CanIncrement(b + seq(n, _ => 255)) && Increment(b + seq(n, _ => 255)) == Increment(b) + seq(n, _ => 0)
  {
    var c: Bytes := b + seq(n, _ => 255);
    var i :| 0 <= i < |b| && b[i] < 255;
    assert c[i] < 255;
    if n == 0 {
      assert c == b;
    } else {
      Carries(b, n - 1);
      assert c[..|c| - 1] == b + seq(n - 1, _ => 255);
    }
  }

  // ----- what holds of the levels and the outstanding jobs

  ghost predicate AheadOf(x: TableEntry, j: Job) { forall a | a in Members(j) :: Precedes(x, a) }

  ghost predicate BehindOf(x: TableEntry, j: Job) { forall a | a in Members(j) :: Precedes(a, x) }

  /** The table lies wholly on one side of everything the job holds. */
  ghost predicate Clear(x: TableEntry, j: Job) { AheadOf(x, j) || BehindOf(x, j) }

  ghost predicate JobBefore(j: Job, k: Job) {
    forall a, b | a in Members(j) && b in Members(k) :: Precedes(a, b)
  }

  ghost predicate JobsApart(j: Job, k: Job) { JobBefore(j, k) || JobBefore(k, j) }

  ghost predicate HoldsTables(j: Job, ls: Levels) {
    && j.source != []
    && (forall t | t in j.source :: t in TablesAt(ls, j.levelFrom))
    && (forall t | t in j.overlap :: t in TablesAt(ls, j.levelFrom + 1))
  }

  ghost predicate SingleSource(j: Job, u: iset<Bytes>)
    requires Keys(u)
  {
    |j.source| == 1 && WellFormed(j.source[0], u) && forall o | o in j.overlap :: Touches(j.source[0], o, u)
  }

  /** Everything in the destination level that the job does not hold is out of its way. */
  ghost predicate HoldsOverlap(j: Job, ls: Levels) {
    forall x | x in TablesAt(ls, j.levelFrom + 1) && x !in j.overlap :: Clear(x, j)
  }

  ghost predicate JobOk(j: Job, ls: Levels, u: iset<Bytes>)
    requires Keys(u)
  {
    && HoldsTables(j, ls) && HoldsOverlap(j, ls)
    && (j.levelFrom > 0 ==> SingleSource(j, u))
    && (j.isMove ==> j.overlap == [] && j.levelFrom > 0)
    && Ascending(j.overlap) && NewestFirst(j, ls)
  }

  /** A level 0 job has the oldest tables of the level, all up to some one, newest of them first. */
  ghost predicate NewestFirst(j: Job, ls: Levels) {
    var n, zero := |j.source|, TablesAt(ls, 0);
    j.levelFrom == 0 ==> n <= |zero| && forall i | 0 <= i < n :: j.source[i] == zero[n - 1 - i]
  }

  ghost predicate NoSharedIds(j: Job, k: Job) {
    forall a, b | a in Members(j) && b in Members(k) :: a.id != b.id
  }

  /** Two jobs hold different tables; into one destination level they have disjoint key ranges. */
  ghost predicate PairOk(j: Job, k: Job) {
    NoSharedIds(j, k) && (j.levelFrom == k.levelFrom ==> j.levelFrom > 0 && JobsApart(j, k))
  }

  ghost predicate LocksOk(jobs: set<Job>, locked: set<TableID>) {
    forall id :: id in locked <==> exists j, t :: j in jobs && t in Members(j) && t.id == id
  }

  /** An id is in one place only. */
  ghost predicate UniqueIds(ls: Levels) {
    forall l: nat, m: nat, x, y | x in TablesAt(ls, l) && y in TablesAt(ls, m) && x.id == y.id :: l == m && x == y
  }

  ghost predicate LevelsSound(ls: Levels, u: iset<Bytes>) { Keys(u) && AllFlatOk(ls, u) && UniqueIds(ls) }

  ghost predicate Core(ls: Levels, jobs: set<Job>, locked: set<TableID>, u: iset<Bytes>) {
    && LevelsSound(ls, u)
    && (forall j | j in jobs :: JobOk(j, ls, u))
    && (forall j, k | j in jobs && k in jobs && j != k :: PairOk(j, k))
    && LocksOk(jobs, locked)
  }

  // ----- creating a job

  /** The job made from a search holds all that is in its way. */
  lemma {:induction false} SearchedJobOk(j: Job, ls: Levels, lo: Bytes, hi: Bytes, u: iset<Bytes>)
    requires LevelsSound(ls, u) && lo in u && hi in u && !Less(hi, lo)
    requires j.source != [] && forall s | s in j.source :: s in TablesAt(ls, j.levelFrom) && Inside(s, lo, hi)
    requires j.overlap == Overlapping(lo, Some(Increment(hi)), TablesAt(ls, j.levelFrom + 1))
    requires j.levelFrom > 0 ==>
               |j.source| == 1 && HasBounds(j.source[0]) && lo == Lo(j.source[0]) && hi == Hi(j.source[0])
    requires j.isMove ==> j.overlap == [] && j.levelFrom > 0
    requires NewestFirst(j, ls)
    ensures JobOk(j, ls, u)
  {
    hide PrefixFree, Less, AllFlatOk, UniqueIds, TableOverlaps, Overlapping, Clear, WellFormed, NoVersion, CanIncrement;
    hide TablesAt, NewestFirst;
    var dest := TablesAt(ls, j.levelFrom + 1);
    OverlappingMembers(lo, Some(Increment(hi)), dest);
    AscendingAt(ls, j.levelFrom + 1, u);
    OverlappingAscending(lo, Some(Increment(hi)), dest);
    forall x | x in dest && x !in j.overlap ensures Clear(x, j) {
      SearchedClear(j, ls, lo, hi, x, u);
    }
    if j.levelFrom > 0 {
      assert j.source[0] in j.source;
      WellFormedAt(ls, j.levelFrom, j.source[0], u);
    }
  }

  ghost predicate Inside(s: TableEntry, lo: Bytes, hi: Bytes) {
    HasBounds(s) && !Less(Lo(s), lo) && !Less(hi, Hi(s))
  }

  lemma {:induction false} WellFormedAt(ls: Levels, l: nat, t: TableEntry, u: iset<Bytes>)
    requires AllFlatOk(ls, u) && t in TablesAt(ls, l)
    ensures WellFormed(t, u)
  {
  }

  lemma {:induction false} AscendingAt(ls: Levels, l: nat, u: iset<Bytes>)
    requires AllFlatOk(ls, u) && l > 0
    ensures Ascending(TablesAt(ls, l))
  {
    hide Precedes, WellFormed;
  }

  lemma {:induction false} OverlappingAscending(lo: Bytes, hi: Option<Bytes>, ts: Tables)
    requires Ascending(ts)
    ensures Ascending(Overlapping(lo, hi, ts))
  {
    hide Precedes, TableOverlaps;
    if ts != [] {
      OverlappingAscending(lo, hi, ts[1..]);
      OverlappingMembers(lo, hi, ts[1..]);
      var r := Overlapping(lo, hi, ts[1..]);
      forall i | 0 <= i < |r| ensures Precedes(ts[0], r[i]) {
        assert r[i] in r;
        var k :| 0 <= k < |ts[1..]| && ts[1..][k] == r[i];
        assert ts[k + 1] == r[i];
      }
    }
  }

  lemma {:induction false} ApartAt(ls: Levels, l: nat, x: TableEntry, y: TableEntry, u: iset<Bytes>)
    requires AllFlatOk(ls, u) && l > 0 && x in TablesAt(ls, l) && y in TablesAt(ls, l) && x != y
    ensures Apart(x, y)
  {
    hide Precedes, WellFormed;
    var i :| 0 <= i < |ls[l]| && ls[l][i] == x;
    var k :| 0 <= k < |ls[l]| && ls[l][k] == y;
    assert Precedes(ls[l][i], ls[l][k]) || Precedes(ls[l][k], ls[l][i]);
  }

  lemma {:induction false} SearchedClear(j: Job, ls: Levels, lo: Bytes, hi: Bytes, x: TableEntry, u: iset<Bytes>)
    requires LevelsSound(ls, u) && lo in u && hi in u && !Less(hi, lo)
    requires forall s | s in j.source :: Inside(s, lo, hi)
    requires forall o ::
               o in j.overlap <==> o in TablesAt(ls, j.levelFrom + 1) && TableOverlaps(lo, Some(Increment(hi)), o)
    requires x in TablesAt(ls, j.levelFrom + 1) && x !in j.overlap
    ensures Clear(x, j)
  {
    hide PrefixFree, AllFlatOk, UniqueIds, TableOverlaps;
    WellFormedAt(ls, j.levelFrom + 1, x, u);
    Unreached(lo, hi, x, u);
    forall o | o in j.overlap
      ensures Less(Hi(x), lo) ==> Precedes(x, o)
      ensures Less(hi, Lo(x)) ==> Precedes(o, x)
    {
      WellFormedAt(ls, j.levelFrom + 1, o, u);
      ApartAt(ls, j.levelFrom + 1, x, o, u);
      UnreachedSide(lo, hi, x, o, u);
    }
    forall s | s in j.source
      ensures Less(Hi(x), lo) ==> Precedes(x, s)
      ensures Less(hi, Lo(x)) ==> Precedes(s, x)
    {
      RankOrderAll();
    }
  }

  /** Jobs from the same level above 0 that hold different tables have disjoint key ranges. */
  lemma {:induction false} SameLevelApart(j: Job, k: Job, ls: Levels, u: iset<Bytes>)
    requires LevelsSound(ls, u) && JobOk(j, ls, u) && JobOk(k, ls, u)
    requires NoSharedIds(j, k) && j.levelFrom == k.levelFrom > 0
    ensures JobsApart(j, k)
  {
    hide PrefixFree, AllFlatOk, UniqueIds, WellFormed, Precedes, Touches, HoldsOverlap;
    var s, s' := j.source[0], k.source[0];
    assert s in Members(j) && s' in Members(k);
    ApartAt(ls, j.levelFrom, s, s', u);
    if Precedes(s, s') { OrderedBefore(j, k, ls, u); } else { OrderedBefore(k, j, ls, u); }
  }

  lemma {:induction false} OrderedBefore(j: Job, k: Job, ls: Levels, u: iset<Bytes>)
    requires LevelsSound(ls, u) && JobOk(j, ls, u) && JobOk(k, ls, u)
    requires NoSharedIds(j, k) && j.levelFrom == k.levelFrom > 0 && Precedes(j.source[0], k.source[0])
    ensures JobBefore(j, k)
  {
    hide PrefixFree, AllFlatOk, UniqueIds, WellFormed, Precedes, Touches;
    var s, s' := j.source[0], k.source[0];
    assert s in Members(j) && s' in Members(k);
    assert (forall o | o in j.overlap :: o in Members(j)) && forall o | o in k.overlap :: o in Members(k);
    forall o | o in k.overlap ensures BehindOf(o, j) {
      WellFormedAt(ls, k.levelFrom + 1, o, u);
      assert o in Members(k) && o !in j.overlap;
      assert Clear(o, j);
      if AheadOf(o, j) {
        PrecedesTrans(o, s, s', u);
        LeftExact(s', o, u);
      }
    }
    forall o | o in j.overlap ensures AheadOf(o, k) {
      WellFormedAt(ls, j.levelFrom + 1, o, u);
      assert o in Members(j) && o !in k.overlap;
      assert Clear(o, k);
      if BehindOf(o, k) { RightExact(s, s', o, u); }
    }
    forall a, b | a in Members(j) && b in Members(k) ensures Precedes(a, b) {
      assert (a == s || a in j.overlap) && (b == s' || b in k.overlap);
    }
  }

  ghost predicate Unlocked(j: Job, locked: set<TableID>) { forall t | t in Members(j) :: t.id !in locked }

  /** lockTablesForJob, unlockTablesForJob: the ids of the tables the job holds. */
  function LockIds(j: Job): set<TableID> { set t | t in Members(j) :: t.id }

  /** A job whose tables are all unlocked can join the others. */
  lemma {:induction false} AddJobKeepsCore(ls: Levels, jobs: set<Job>, locked: set<TableID>, j: Job, u: iset<Bytes>)
    requires Core(ls, jobs, locked, u) && JobOk(j, ls, u) && Unlocked(j, locked)
    requires j.levelFrom == 0 ==> forall t | t in TablesAt(ls, 0) :: t in j.source
    ensures j !in jobs && Core(ls, jobs + {j}, locked + LockIds(j), u)
  {
    hide LevelsSound, HoldsOverlap, SingleSource, JobsApart;
    assert j.source[0] in Members(j);
    forall k | k in jobs ensures PairOk(k, j) && PairOk(j, k) {
      forall a, b | a in Members(k) && b in Members(j) ensures a.id != b.id { assert a.id in locked; }
      if k.levelFrom == j.levelFrom {
        OneFromZero(k, j, ls);
        SameLevelApart(k, j, ls, u);
        ApartSymmetric(k, j);
      }
    }
  }

  /** A job that takes all of level 0 leaves nothing for a second one. */
  lemma {:induction false} OneFromZero(k: Job, j: Job, ls: Levels)
    requires HoldsTables(k, ls) && k.levelFrom == j.levelFrom && NoSharedIds(k, j)
    requires j.levelFrom == 0 ==> forall t | t in TablesAt(ls, 0) :: t in j.source
    ensures j.levelFrom > 0
  {
    var t := k.source[0];
    assert t in k.source && t in Members(k);
    assert t in j.source ==> t in Members(j);
  }

  lemma {:induction false} ApartSymmetric(j: Job, k: Job)
    ensures JobsApart(j, k) <==> JobsApart(k, j)
  {
  }

  // ----- applying a job

  /** A key range within the span of what the job holds. */
  ghost predicate Within(t: TableEntry, j: Job) {
    && HasBounds(t)
    && (exists a | a in Members(j) :: HasBounds(a) && !Less(Lo(t), Lo(a)))
    && (exists b | b in Members(j) :: HasBounds(b) && !Less(Hi(b), Hi(t)))
  }

  ghost predicate FreshId(id: TableID, ls: Levels) {
    forall l: nat, x | x in TablesAt(ls, l) :: x.id != id
  }

  /**
   What a worker hands back: tables over keys of what it was given, in key order and apart, under
   new ids, or the very table it was asked to move.
   */
  ghost predicate OutputOk(j: Job, outs: Tables, ls: Levels, u: iset<Bytes>) {
    && Ascending(outs) && DistinctIds(outs)
    && (forall t | t in outs :: WellFormed(t, u) && Within(t, j))
    && (forall t | t in outs :: FreshId(t.id, ls) || t in j.source)
  }

  function JobDeregs(j: Job): seq<LevelDeReg> {
    DeregsFrom(j.levelFrom, j.source) + DeregsFrom(j.levelFrom + 1, j.overlap)
  }

  function JobRegs(j: Job, outs: Tables): seq<Reg> { RegsTo(j.levelFrom + 1, outs) }

  ghost function Applied(ls: Levels, j: Job, outs: Tables): Levels {
    ApplyBatch(ls, JobRegs(j, outs), JobDeregs(j))
  }

  /** De-registering a job's tables removes them and nothing else. */
  lemma {:induction false} DeregisteredJob(ls: Levels, j: Job, l: nat, x: TableEntry, u: iset<Bytes>)
    requires LevelsSound(ls, u) && HoldsTables(j, ls)
    ensures x in TablesAt(DeregisterAll(ls, JobDeregs(j)), l) <==> x in TablesAt(ls, l) && x !in Members(j)
  {
    hide AllFlatOk, DeregisterAll, Keys;
    DeregisteredMembers(ls, JobDeregs(j), l, x, u);
    if x in TablesAt(ls, l) {
      if x in Members(j) {
        DeregNamed(j, x);
      } else {
        forall d | d in JobDeregs(j) ensures d.level != l || d.dereg.id != x.id { DeregNames(j, d, ls); }
      }
    }
  }

  lemma {:induction false} DeregNamed(j: Job, x: TableEntry)
    requires x in Members(j)
    ensures x in j.source ==> LevelDeReg(j.levelFrom, DeReg(x.id, x.rangeStart, x.rangeEnd)) in JobDeregs(j)
    ensures x in j.overlap ==> LevelDeReg(j.levelFrom + 1, DeReg(x.id, x.rangeStart, x.rangeEnd)) in JobDeregs(j)
  {
    var a, b := DeregsFrom(j.levelFrom, j.source), DeregsFrom(j.levelFrom + 1, j.overlap);
    if x in j.source {
      var i :| 0 <= i < |j.source| && j.source[i] == x;
      assert a[i] in a;
    }
    if x in j.overlap {
      var i :| 0 <= i < |j.overlap| && j.overlap[i] == x;
      assert b[i] in b;
    }
  }

  lemma {:induction false} DeregNames(j: Job, d: LevelDeReg, ls: Levels)
    requires HoldsTables(j, ls) && d in JobDeregs(j)
    ensures exists t | t in Members(j) ::
              t in TablesAt(ls, d.level) && d.dereg == DeReg(t.id, t.rangeStart, t.rangeEnd)
  {
    var a, b := DeregsFrom(j.levelFrom, j.source), DeregsFrom(j.levelFrom + 1, j.overlap);
    var i :| 0 <= i < |a + b| && (a + b)[i] == d;
    var t := if i < |a| then j.source[i] else j.overlap[i - |a|];
    assert t in Members(j);
  }

  lemma {:induction false} ClearOfOutput(x: TableEntry, j: Job, t: TableEntry)
    requires Clear(x, j) && Within(t, j)
    ensures AheadOf(x, j) ==> Precedes(x, t)
    ensures BehindOf(x, j) ==> Precedes(t, x)
    ensures Apart(x, t)
  {
    var a :| a in Members(j) && HasBounds(a) && !Less(Lo(t), Lo(a));
    var b :| b in Members(j) && HasBounds(b) && !Less(Hi(b), Hi(t));
    if AheadOf(x, j) { assert Precedes(x, a); }
    if BehindOf(x, j) { assert Precedes(b, x); }
    RankOrderAll();
  }

  lemma {:induction false} OutputFits(ls: Levels, j: Job, outs: Tables, t: TableEntry, u: iset<Bytes>)
    requires LevelsSound(ls, u) && JobOk(j, ls, u) && OutputOk(j, outs, ls, u) && t in outs
    ensures Fits(TablesAt(DeregisterAll(ls, JobDeregs(j)), j.levelFrom + 1), t)
  {
    hide AllFlatOk, DeregisterAll, Keys, SingleSource, WellFormed, Apart, Within, Ascending, TablesAt, JobDeregs;
    var ls', dest := DeregisterAll(ls, JobDeregs(j)), j.levelFrom + 1;
    assert forall o | o in j.overlap :: o in Members(j);
    forall x | x in TablesAt(ls', dest) ensures x.id != t.id && Apart(x, t) {
      DeregisteredJob(ls, j, dest, x, u);
      assert x !in j.overlap;
      ClearOfOutput(x, j, t);
      assert t in j.source ==> t in TablesAt(ls, j.levelFrom) && t in Members(j);
    }
    FitsAll(TablesAt(ls', dest), t);
  }

  /**
   The batch of a finished job always fits: no registration meets a table already there, so neither
   the overlap error nor the missing-segment panic can arise.
   */
  lemma {:induction false} JobBatchFits(ls: Levels, j: Job, outs: Tables, u: iset<Bytes>)
    requires LevelsSound(ls, u) && JobOk(j, ls, u) && OutputOk(j, outs, ls, u)
    ensures RegsFit(DeregisterAll(ls, JobDeregs(j)), JobRegs(j, outs), u) && DeregsName(ls, JobDeregs(j))
  {
    hide AllFlatOk, DeregisterAll, RegisterAll, Keys, SingleSource, WellFormed, Fits, Within, Ascending, TablesAt;
    hide JobDeregs;
    var ls', dest := DeregisterAll(ls, JobDeregs(j)), j.levelFrom + 1;
    forall i | 0 <= i < |outs| ensures WellFormed(outs[i], u) && Fits(TablesAt(ls', dest), outs[i]) {
      assert outs[i] in outs;
      OutputFits(ls, j, outs, outs[i], u);
    }
    RegisterDisjoint(ls', dest, outs, u);
    forall i | 0 <= i < |JobDeregs(j)| ensures Names(JobDeregs(j)[i].dereg, TablesAt(ls, JobDeregs(j)[i].level)) {
      assert JobDeregs(j)[i] in JobDeregs(j);
      DeregNames(j, JobDeregs(j)[i], ls);
    }
  }

  /** It leaves each level what it had, less the job's tables, and the destination the output as well. */
  lemma {:induction false} AppliedAt(ls: Levels, j: Job, outs: Tables, x: TableEntry, l: nat, u: iset<Bytes>)
    requires LevelsSound(ls, u) && JobOk(j, ls, u) && OutputOk(j, outs, ls, u)
    ensures x in TablesAt(Applied(ls, j, outs), l) <==>
            (x in TablesAt(ls, l) && x !in Members(j)) || (l == j.levelFrom + 1 && x in outs)
  {
    hide AllFlatOk, DeregisterAll, RegisterAll, Keys, SingleSource, WellFormed, Fits, Within, Ascending, TablesAt;
    hide JobDeregs;
    var ls', dest := DeregisterAll(ls, JobDeregs(j)), j.levelFrom + 1;
    forall i | 0 <= i < |outs| ensures WellFormed(outs[i], u) && Fits(TablesAt(ls', dest), outs[i]) {
      assert outs[i] in outs;
      OutputFits(ls, j, outs, outs[i], u);
    }
    RegisterDisjoint(ls', dest, outs, u);
    DeregisteredJob(ls, j, l, x, u);
    assert Applied(ls, j, outs) == RegisterAll(ls', RegsTo(dest, outs));
    if l == dest {
      assert x in TablesAt(RegisterAll(ls', RegsTo(dest, outs)), dest) <==> x in TablesAt(ls', dest) || x in outs;
    }
  }

  lemma {:induction false} FitsAll(ts: Tables, t: TableEntry)
    requires forall x | x in ts :: x.id != t.id && Apart(x, t)
    ensures Fits(ts, t)
  {
  }

  /** Applying a finished job's output keeps the levels sound and every other job's claims true. */
  lemma {:induction false} ApplyKeepsCore(ls: Levels, jobs: set<Job>, locked: set<TableID>, j: Job, outs: Tables,
                                          u: iset<Bytes>)
    requires Core(ls, jobs, locked, u) && j in jobs && OutputOk(j, outs, ls, u)
    ensures Core(Applied(ls, j, outs), jobs - {j}, locked - LockIds(j), u)
  {
    hide *;
    CoreParts(ls, jobs, locked, u);
    AppliedSound(ls, j, outs, u);
    forall k | k in jobs - {j} ensures JobOk(k, Applied(ls, j, outs), u) {
      OtherJobOk(ls, j, k, outs, u);
    }
    forall k | k in jobs && k != j ensures NoSharedIds(j, k) { PairNoShared(j, k); }
    UnlockKeepsLocks(jobs, locked, j);
    CoreFrom(Applied(ls, j, outs), jobs - {j}, locked - LockIds(j), u);
  }

  lemma {:induction false} PairNoShared(j: Job, k: Job)
    requires PairOk(j, k)
    ensures NoSharedIds(j, k)
  {
  }

  lemma {:induction false} CoreParts(ls: Levels, jobs: set<Job>, locked: set<TableID>, u: iset<Bytes>)
    requires Core(ls, jobs, locked, u)
    ensures LevelsSound(ls, u) && LocksOk(jobs, locked) && Keys(u)
    ensures forall j | j in jobs :: JobOk(j, ls, u)
    ensures forall j, k | j in jobs && k in jobs && j != k :: PairOk(j, k)
  {
  }

  lemma {:induction false} CoreFrom(ls: Levels, jobs: set<Job>, locked: set<TableID>, u: iset<Bytes>)
    requires LevelsSound(ls, u) && LocksOk(jobs, locked) && Keys(u)
    requires forall j | j in jobs :: JobOk(j, ls, u)
    requires forall j, k | j in jobs && k in jobs && j != k :: PairOk(j, k)
    ensures Core(ls, jobs, locked, u)
  {
  }

  lemma {:induction false} UnlockKeepsLocks(jobs: set<Job>, locked: set<TableID>, j: Job)
    requires LocksOk(jobs, locked) && j in jobs && forall k | k in jobs && k != j :: NoSharedIds(j, k)
    ensures LocksOk(jobs - {j}, locked - LockIds(j))
  {
    forall id ensures id in locked - LockIds(j) <==> exists k, t :: k in jobs - {j} && t in Members(k) && t.id == id {
      if k, t :| k in jobs - {j} && t in Members(k) && t.id == id { assert id in locked; }
      if id in locked - LockIds(j) {
        var k, t :| k in jobs && t in Members(k) && t.id == id;
        assert k in jobs - {j};
      }
    }
  }

  lemma {:induction false} AppliedSound(ls: Levels, j: Job, outs: Tables, u: iset<Bytes>)
    requires LevelsSound(ls, u) && JobOk(j, ls, u) && OutputOk(j, outs, ls, u)
    ensures LevelsSound(Applied(ls, j, outs), u)
  {
    hide AllFlatOk, WellFormed, Within, Ascending, TablesAt, JobDeregs, RegsFit, Precedes;
    JobBatchFits(ls, j, outs, u);
    DeregisterAllKeepsFlatOk(ls, JobDeregs(j), u);
    var regs := JobRegs(j, outs);
    OutputHasKeys(j, outs, ls, u);
    RegisterAllKeepsFlatOk(DeregisterAll(ls, JobDeregs(j)), regs, u);
    var ls' := Applied(ls, j, outs);
    forall l: nat, m: nat, x, y | x in TablesAt(ls', l) && y in TablesAt(ls', m) && x.id == y.id
      ensures l == m && x == y
    {
      AppliedAt(ls, j, outs, x, l, u);
      AppliedAt(ls, j, outs, y, m, u);
      NoClash(ls, j, outs, l, x, m, y, u);
    }
  }

  lemma {:induction false} OutputHasKeys(j: Job, outs: Tables, ls: Levels, u: iset<Bytes>)
    requires OutputOk(j, outs, ls, u)
    ensures forall r | r in JobRegs(j, outs) :: RegHasKeys(r)
    ensures forall i | 0 <= i < |JobRegs(j, outs)| :: RegHasKeys(JobRegs(j, outs)[i])
  {
    hide Ascending, DistinctIds, Within, FreshId;
    forall i | 0 <= i < |outs| ensures RegHasKeys(JobRegs(j, outs)[i]) { assert outs[i] in outs; }
  }

  lemma {:induction false} NoClash(ls: Levels, j: Job, outs: Tables, l: nat, x: TableEntry, m: nat, y: TableEntry,
                                   u: iset<Bytes>)
    requires LevelsSound(ls, u) && HoldsTables(j, ls) && OutputOk(j, outs, ls, u) && x.id == y.id
    requires (x in TablesAt(ls, l) && x !in Members(j)) || (l == j.levelFrom + 1 && x in outs)
    requires (y in TablesAt(ls, m) && y !in Members(j)) || (m == j.levelFrom + 1 && y in outs)
    ensures l == m && x == y
  {
    hide AllFlatOk, Keys, WellFormed, Within, Ascending, TablesAt;
    forall t | t in j.source ensures t in Members(j) && t in TablesAt(ls, j.levelFrom) {}
    if x in outs && y in outs {
      var i :| 0 <= i < |outs| && outs[i] == x;
      var k :| 0 <= k < |outs| && outs[k] == y;
    }
  }

  /** What another job holds stays where it is, and nothing new comes in its way. */
  lemma {:induction false} OtherJobOk(ls: Levels, j: Job, k: Job, outs: Tables, u: iset<Bytes>)
    requires LevelsSound(ls, u) && JobOk(j, ls, u) && JobOk(k, ls, u) && PairOk(j, k) && OutputOk(j, outs, ls, u)
    ensures JobOk(k, Applied(ls, j, outs), u)
  {
    hide LevelsSound, TablesAt, SingleSource, Applied, OutputOk, Clear, PairOk, Less, JobOk;
    SoundKeys(ls, u);
    JobParts(k, ls, u);
    var ls' := Applied(ls, j, outs);
    PairNoShared(j, k);
    forall t | t in k.source ensures t in TablesAt(ls', k.levelFrom) {
      assert t in Members(k);
      AppliedAt(ls, j, outs, t, k.levelFrom, u);
    }
    forall t | t in k.overlap ensures t in TablesAt(ls', k.levelFrom + 1) {
      assert t in Members(k);
      AppliedAt(ls, j, outs, t, k.levelFrom + 1, u);
    }
    forall x | x in TablesAt(ls', k.levelFrom + 1) && x !in k.overlap ensures Clear(x, k) {
      AppliedAt(ls, j, outs, x, k.levelFrom + 1, u);
      if x !in TablesAt(ls, k.levelFrom + 1) {
        PairApart(j, k);
        OutputWithin(j, outs, ls, x, u);
        OutputClear(j, k, x);
      }
    }
    ZeroUntouched(ls, j, k, outs, u);
    JobFrom(k, ls, ls', u);
  }

  /** A job that takes tables from level 0 keeps its place there. */
  lemma {:induction false} ZeroUntouched(ls: Levels, j: Job, k: Job, outs: Tables, u: iset<Bytes>)
    requires Keys(u) && JobOk(k, ls, u) && PairOk(j, k)
    ensures NewestFirst(k, Applied(ls, j, outs))
  {
    hide HoldsTables, HoldsOverlap, SingleSource, Ascending, JobsApart, NoSharedIds, Keys, JobDeregs, DeregisterAll;
    hide RegisterAll;
    if k.levelFrom == 0 {
      DeregistersElsewhere(ls, JobDeregs(j), 0) by { JobDeregLevels(j); }
      RegistersElsewhere(DeregisterAll(ls, JobDeregs(j)), JobRegs(j, outs), 0);
    }
  }

  lemma {:induction false} JobDeregLevels(j: Job)
    ensures forall i | 0 <= i < |JobDeregs(j)| :: JobDeregs(j)[i].level >= j.levelFrom
  {
  }

  lemma {:induction false} SoundKeys(ls: Levels, u: iset<Bytes>)
    requires LevelsSound(ls, u)
    ensures Keys(u)
  {
  }

  lemma {:induction false} JobParts(j: Job, ls: Levels, u: iset<Bytes>)
    requires Keys(u) && JobOk(j, ls, u)
    ensures HoldsTables(j, ls) && HoldsOverlap(j, ls) && NewestFirst(j, ls)
  {
  }

  lemma {:induction false} JobFrom(j: Job, ls: Levels, ls': Levels, u: iset<Bytes>)
    requires Keys(u) && JobOk(j, ls, u) && HoldsTables(j, ls') && HoldsOverlap(j, ls') && NewestFirst(j, ls')
    ensures JobOk(j, ls', u)
  {
  }

  lemma {:induction false} PairApart(j: Job, k: Job)
    requires PairOk(j, k) && j.levelFrom == k.levelFrom
    ensures JobsApart(j, k)
  {
  }

  lemma {:induction false} OutputWithin(j: Job, outs: Tables, ls: Levels, t: TableEntry, u: iset<Bytes>)
    requires OutputOk(j, outs, ls, u) && t in outs
    ensures Within(t, j)
  {
  }

  lemma {:induction false} OutputClear(j: Job, k: Job, t: TableEntry)
    requires JobsApart(j, k) && Within(t, j)
    ensures Clear(t, k)
  {
    forall b | b in Members(k)
      ensures JobBefore(j, k) ==> Precedes(t, b)
      ensures JobBefore(k, j) ==> Precedes(b, t)
    {
      if JobBefore(j, k) { assert BehindOf(b, j); ClearOfOutput(b, j, t); }
      if JobBefore(k, j) { assert AheadOf(b, j); ClearOfOutput(b, j, t); }
    }
  }

  // ----- a new table in level 0

  lemma {:induction false} RegisterZeroKeepsCore(ls: Levels, jobs: set<Job>, locked: set<TableID>, t: TableEntry,
                                                 u: iset<Bytes>)
    requires Core(ls, jobs, locked, u) && WellFormed(t, u) && FreshId(t.id, ls)
    ensures Core(RegisterIn(ls, Reg(0, t)), jobs, locked, u)
    ensures forall x, l: nat ::
              x in TablesAt(RegisterIn(ls, Reg(0, t)), l) <==> x in TablesAt(ls, l) || (l == 0 && x == t)
  {
    hide AllFlatOk, WellFormed, SingleSource, Clear, PairOk, Keys, DeregisterAll;
    var ls' := RegisterIn(ls, Reg(0, t));
    assert !HasId(TablesAt(ls, 0), t.id);
    forall l: nat ensures TablesAt(ls', l) == if l == 0 then TablesAt(ls, 0) + [t] else TablesAt(ls, l) {
      SetLevelAt(ls, 0, AddTo(0, TablesAt(ls, 0), t), l);
    }
    RegisterKeepsFlatOk(ls, Reg(0, t), u) by { UnfoldKeys(u); }
  }

  lemma {:induction false} UnfoldKeys(u: iset<Bytes>)
    requires Keys(u)
    ensures PrefixFree(u)
  {
  }
}
