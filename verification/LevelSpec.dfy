/**
 Levels of tables, seen flat. Level 0 is a list of possibly overlapping tables, oldest first; every
 other level is a sequence of tables with disjoint, increasing key ranges. This module defines what
 registering and de-registering a table mean for a flat level, and when a key range overlaps a table.
 */
module LevelSpec {
  import opened Bytes
  import opened KeyEncoding

  type TableID = string

  /** levels/structs.go: TableEntry. The range bounds are stored keys, version included. */
  datatype TableEntry = TableEntry(id: TableID, rangeStart: Bytes, rangeEnd: Bytes,
                                   minVersion: UInt64, maxVersion: UInt64, deleteRatio: real,
                                   numEntries: nat, size: nat)

  function NoVersion(key: Bytes): Bytes
    requires |key| >= 8
  {
    key[..|key| - 8]
  }

  /** A table whose bounds are versioned keys over u, in order. */
  ghost predicate WellFormed(t: TableEntry, u: iset<Bytes>) {
    && |t.rangeStart| > 8 && |t.rangeEnd| > 8
    && NoVersion(t.rangeStart) in u && NoVersion(t.rangeEnd) in u
    && !Less(t.rangeEnd, t.rangeStart)
    && !Less(NoVersion(t.rangeEnd), NoVersion(t.rangeStart))
  }

  predicate HasBounds(t: TableEntry) { |t.rangeStart| > 8 && |t.rangeEnd| > 8 }

  /** The smallest and largest unversioned key of a table. */
  function Lo(t: TableEntry): Bytes requires HasBounds(t) { NoVersion(t.rangeStart) }

  function Hi(t: TableEntry): Bytes requires HasBounds(t) { NoVersion(t.rangeEnd) }

  /** a lies entirely before b on unversioned keys. */
  predicate Precedes(a: TableEntry, b: TableEntry) {
    HasBounds(a) && HasBounds(b) && Less(Hi(a), Lo(b))
  }

  predicate Apart(a: TableEntry, b: TableEntry) { Precedes(a, b) || Precedes(b, a) }

  type Tables = seq<TableEntry>

  ghost predicate AllWellFormed(ts: Tables, u: iset<Bytes>) {
    forall i | 0 <= i < |ts| :: WellFormed(ts[i], u)
  }

  ghost predicate Ascending(ts: Tables) {
    forall i, j | 0 <= i < j < |ts| :: Precedes(ts[i], ts[j])
  }

  ghost predicate DistinctIds(ts: Tables) {
    forall i, j | 0 <= i < j < |ts| :: ts[i].id != ts[j].id
  }

  // ----- stored keys against unversioned keys

  /** On prefix-free keys, a smaller unversioned key stays smaller whatever the versions are. */
  lemma {:induction false} VersionedLess(a: Bytes, b: Bytes, u: iset<Bytes>)
    requires PrefixFree(u) && |a| >= 8 && |b| >= 8 && NoVersion(a) in u && NoVersion(b) in u
    requires Less(NoVersion(a), NoVersion(b))
    ensures Less(a, b)
  {
    var x, y := NoVersion(a), NoVersion(b);
    RankOrder(x, x);
    assert !IsPrefix(x, y);
    LessIsStrong(x, y);
    StrongLessAppend(x, a[|x|..], y, b[|y|..]);
    assert a == x + a[|x|..] && b == y + b[|y|..];
  }

  /** Tables that lie apart are told apart by their stored bounds: what the index code compares. */
  lemma {:induction false} BoundsDecide(a: TableEntry, b: TableEntry, u: iset<Bytes>)
    requires PrefixFree(u) && WellFormed(a, u) && WellFormed(b, u) && Apart(a, b)
    ensures Less(a.rangeEnd, b.rangeStart) <==> Precedes(a, b)
    ensures Precedes(a, b) ==> Less(a.rangeStart, b.rangeStart) && Less(a.rangeEnd, b.rangeEnd)
    ensures !(Precedes(a, b) && Precedes(b, a))
  {
    RankOrderAll();
    if Precedes(a, b) { VersionedLess(a.rangeEnd, b.rangeStart, u); }
    if Precedes(b, a) { VersionedLess(b.rangeEnd, a.rangeStart, u); }
  }

  lemma {:induction false} PrecedesTrans(a: TableEntry, b: TableEntry, c: TableEntry, u: iset<Bytes>)
    requires WellFormed(b, u) && Precedes(a, b) && Precedes(b, c)
    ensures Precedes(a, c)
  {
    RankOrderAll();
  }

  // ----- registering and de-registering on a flat level

  /** The place of a table in an ascending level is before the first one it precedes. */
  function InsertTable(ts: Tables, t: TableEntry): (r: Tables)
    ensures |r| == |ts| + 1
  {
    if ts == [] then [t]
    else if Precedes(t, ts[0]) then [t] + ts
    else [ts[0]] + InsertTable(ts[1..], t)
  }

  lemma {:induction false} InsertMembers(ts: Tables, t: TableEntry)
    ensures forall x :: x in InsertTable(ts, t) <==> x == t || x in ts
  {
    if ts != [] { InsertMembers(ts[1..], t); }
  }

  lemma {:induction false} InsertAt(ts: Tables, t: TableEntry, p: nat)
    requires p <= |ts|
    requires forall i | 0 <= i < p :: !Precedes(t, ts[i])
    requires p < |ts| ==> Precedes(t, ts[p])
    ensures InsertTable(ts, t) == ts[..p] + [t] + ts[p..]
  {
    hide Precedes;
    if p > 0 {
      assert forall i | 0 <= i < p - 1 :: ts[1..][i] == ts[i + 1];
      InsertAt(ts[1..], t, p - 1);
      assert ts[..p] == [ts[0]] + ts[1..][..p - 1];
      assert ts[1..][p - 1..] == ts[p..];
    }
  }

  /** t can join an ascending level: new id, and apart from every table there. */
  ghost predicate Fits(ts: Tables, t: TableEntry) {
    forall i | 0 <= i < |ts| :: ts[i].id != t.id && Apart(ts[i], t)
  }

  /** Where t goes: everything before p precedes it and it precedes everything from p on. */
  ghost predicate Splits(ts: Tables, t: TableEntry, p: int) {
    && 0 <= p <= |ts|
    && (forall i | 0 <= i < p :: Precedes(ts[i], t))
    && (forall i | p <= i < |ts| :: Precedes(t, ts[i]))
  }

  lemma {:induction false} SplitInsert(ts: Tables, t: TableEntry, p: nat, u: iset<Bytes>)
    requires PrefixFree(u) && AllWellFormed(ts, u) && WellFormed(t, u) && Splits(ts, t, p)
    ensures InsertTable(ts, t) == ts[..p] + [t] + ts[p..]
  {
    forall i | 0 <= i < p ensures !Precedes(t, ts[i]) { BoundsDecide(ts[i], t, u); }
    InsertAt(ts, t, p);
  }

  lemma {:induction false} InsertedAscending(ts: Tables, t: TableEntry, p: nat)
    requires Ascending(ts) && Splits(ts, t, p)
    ensures Ascending(ts[..p] + [t] + ts[p..])
  {
  }

  /** Removes the table with the given id, if it is there. */
  function RemoveTable(ts: Tables, id: TableID): (r: Tables)
    ensures |r| <= |ts|
  {
    if ts == [] then []
    else if ts[0].id == id then ts[1..]
    else [ts[0]] + RemoveTable(ts[1..], id)
  }

  lemma {:induction false} RemoveAt(ts: Tables, p: nat)
    requires p < |ts| && forall i | 0 <= i < p :: ts[i].id != ts[p].id
    ensures RemoveTable(ts, ts[p].id) == ts[..p] + ts[p + 1..]
  {
    if p > 0 {
      assert ts[1..][p - 1] == ts[p];
      RemoveAt(ts[1..], p - 1);
      assert ts[..p] == [ts[0]] + ts[1..][..p - 1];
      assert ts[1..][p..] == ts[p + 1..];
    }
  }

  lemma {:induction false} RemoveAbsent(ts: Tables, id: TableID)
    requires forall i | 0 <= i < |ts| :: ts[i].id != id
    ensures RemoveTable(ts, id) == ts
  {
    if ts != [] { RemoveAbsent(ts[1..], id); }
  }

  /** With distinct ids exactly the table asked for goes. */
  lemma {:induction false} RemoveMembers(ts: Tables, id: TableID)
    requires DistinctIds(ts)
    ensures DistinctIds(RemoveTable(ts, id))
    ensures forall x :: x in RemoveTable(ts, id) <==> x in ts && x.id != id
  {
    if i :| 0 <= i < |ts| && ts[i].id == id {
      RemoveAt(ts, i);
      forall x | x in ts && x.id == id ensures x == ts[i] {
        var k :| 0 <= k < |ts| && ts[k] == x;
      }
    } else {
      RemoveAbsent(ts, id);
    }
  }

  lemma {:induction false} RemoveAscending(ts: Tables, id: TableID)
    requires Ascending(ts)
    ensures Ascending(RemoveTable(ts, id))
  {
    if i :| 0 <= i < |ts| && ts[i].id == id && forall j | 0 <= j < i :: ts[j].id != id {
      RemoveAt(ts, i);
    } else {
      if ts != [] { FirstOrNone(ts, id); }
      RemoveAbsent(ts, id);
    }
  }

  /** Either no table has the id or there is a first one that has it. */
  lemma {:induction false} FirstOrNone(ts: Tables, id: TableID)
    ensures (forall i | 0 <= i < |ts| :: ts[i].id != id)
            || exists i | 0 <= i < |ts| :: ts[i].id == id && forall j | 0 <= j < i :: ts[j].id != id
  {
    if ts != [] && ts[0].id != id {
      FirstOrNone(ts[1..], id);
      if i :| 0 <= i < |ts[1..]| && ts[1..][i].id == id && forall j | 0 <= j < i :: ts[1..][j].id != id {
        assert ts[i + 1].id == id && forall j | 0 <= j < i + 1 :: ts[j].id != id by {
          forall j | 0 <= j < i + 1 ensures ts[j].id != id {
            if j > 0 { assert ts[1..][j - 1].id != id; }
          }
        }
      } else {
        forall i | 0 <= i < |ts| ensures ts[i].id != id {
          if i > 0 { assert ts[1..][i - 1].id != id; }
        }
      }
    }
  }

  // ----- overlap

  /** level_manager.go hasOverlap: keyStart inclusive, keyEnd exclusive (None is unbounded). */
  predicate HasOverlap(keyStart: Bytes, keyEnd: Option<Bytes>, blockStart: Bytes, blockEnd: Bytes) {
    !(Less(blockEnd, keyStart) || (keyEnd.Some? && LessEq(keyEnd.value, blockStart)))
  }

  predicate TableOverlaps(keyStart: Bytes, keyEnd: Option<Bytes>, t: TableEntry) {
    HasOverlap(keyStart, keyEnd, t.rangeStart, t.rangeEnd)
  }

  /** A flat scan: the tables that overlap, in their order. */
  function Overlapping(keyStart: Bytes, keyEnd: Option<Bytes>, ts: Tables): (r: Tables) {
    if ts == [] then []
    else (if TableOverlaps(keyStart, keyEnd, ts[0]) then [ts[0]] else []) + Overlapping(keyStart, keyEnd, ts[1..])
  }

  lemma {:induction false} OverlappingMembers(keyStart: Bytes, keyEnd: Option<Bytes>, ts: Tables)
    ensures forall x :: x in Overlapping(keyStart, keyEnd, ts) <==> x in ts && TableOverlaps(keyStart, keyEnd, x)
  {
    hide TableOverlaps;
    if ts != [] { OverlappingMembers(keyStart, keyEnd, ts[1..]); }
  }

  lemma {:induction false} OverlappingAppend(keyStart: Bytes, keyEnd: Option<Bytes>, a: Tables, b: Tables)
    ensures Overlapping(keyStart, keyEnd, a + b) == Overlapping(keyStart, keyEnd, a) + Overlapping(keyStart, keyEnd, b)
  {
    hide TableOverlaps;
    if a == [] {
      assert a + b == b;
    } else {
      OverlappingAppend(keyStart, keyEnd, a[1..], b);
      assert (a + b)[0] == a[0] && (a + b)[1..] == a[1..] + b;
      var head := if TableOverlaps(keyStart, keyEnd, a[0]) then [a[0]] else [];
      var x, y := Overlapping(keyStart, keyEnd, a[1..]), Overlapping(keyStart, keyEnd, b);
      assert head + (x + y) == (head + x) + y;
    }
  }

  /**
   The range the scheduler asks for, from the smallest unversioned source key to just past the
   largest, captures every table that holds any key, at any version, within the source range. This
   is where versions must be stripped, the end incremented, and keys be prefix-free.
   */
  lemma {:induction false} OverlapSearchComplete(lo: Bytes, hi: Bytes, t: TableEntry, u: iset<Bytes>)
    requires PrefixFree(u) && lo in u && hi in u && CanIncrement(hi) && WellFormed(t, u)
    requires !Less(Hi(t), lo) && !Less(hi, Lo(t))
    ensures TableOverlaps(lo, Some(Increment(hi)), t)
  {
    RankOrderAll();
    ExtensionNotLess(Hi(t), t.rangeEnd[|t.rangeEnd| - 8..], lo);
    assert t.rangeEnd == Hi(t) + t.rangeEnd[|t.rangeEnd| - 8..];
    var v := t.rangeStart[|t.rangeStart| - 8..];
    assert t.rangeStart == Lo(t) + v;
    IncrementAbove(hi);
    if Lo(t) == hi {
      StrongLessAppend(hi, v, Increment(hi), []);
    } else {
      Trichotomy(Lo(t), hi);
      assert !IsPrefix(Lo(t), hi);
      LessIsStrong(Lo(t), hi);
      StrongLessAppend(Lo(t), v, hi, []);
      StrongLessAppend(hi, [], Increment(hi), []);
      assert hi + [] == hi;
    }
    assert Increment(hi) + [] == Increment(hi);
  }

  lemma {:induction false} ExtensionNotLess(a: Bytes, x: Bytes, b: Bytes)
    requires !Less(a, b)
    ensures !Less(a + x, b)
  {
    if a != [] && b != [] {
      assert (a + x)[1..] == a[1..] + x;
      if a[0] == b[0] { ExtensionNotLess(a[1..], x, b[1..]); }
    } else if a == [] {
      assert b == [];
    }
  }

  /** A wider block overlaps whatever a narrower one does: pruning by segment range loses nothing. */
  lemma {:induction false} WiderOverlaps(keyStart: Bytes, keyEnd: Option<Bytes>, s: Bytes, e: Bytes, t: TableEntry)
    requires !Less(t.rangeStart, s) && !Less(e, t.rangeEnd)
    requires TableOverlaps(keyStart, keyEnd, t)
    ensures HasOverlap(keyStart, keyEnd, s, e)
  {
    RankOrderAll();
  }
}
