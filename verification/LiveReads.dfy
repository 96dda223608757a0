/**
 What reads show when a job drops tombstones. A read shows a value; where it finds a tombstone, or nothing, it
 shows nothing. Applying a job never takes a value away that is shown at or above the bound of its merge.
 It shows nothing that was hidden either, where the deletes among the job's tables are done and nothing
 older lies elsewhere: below the destination there is nothing, and above it all is at least as new.
 */
module LiveReads {
  import opened Bytes
  import opened KeyEncoding
  import opened MergeSpec
  import opened MergeRounds
  import opened MergingIterators
  import opened CompactionMerge
  import opened LevelSpec
  import opened LevelIndex
  import opened MasterRecord
  import opened CompactionSpec
  import opened CompactionDrops
  import opened CompactionWorker
  import opened CompactionReads

  /** A read of x's key at version v gives the value x. */
  ghost predicate Shows(ls: Levels, store: Store, v: int, x: Entry) { Reads(ls, store, v, x) && !IsTombstone(x) }

  // ----- nothing shown is lost

  ghost predicate LiveAt(c: Change, v: int) { forall x | !IsTombstone(x) :: Carried(c, v, x) }

  /** A value that was shown is shown afterwards. */
  lemma {:induction false} LiveStays(c: Change, u: iset<Bytes>, v: UInt64, x: Entry)
    requires ChangeOk(c, u) && LiveAt(c, v) && Shows(c.ls, c.store, v, x)
    ensures Shows(After(c), c.store', v, x)
  {
    hide ChangeOk, ReadsAt, After, Carried;
    var l: nat, t :| ReadsAt(c.ls, c.store, v, x, l, t);
    if t in Members(c.job) { MemberReadsOn(c, u, v, x, l, t); } else { UntouchedReadsOn(c, u, v, x, l, t); }
  }

  // ----- a key that vanishes

  /** And nothing of k up to v was written. */
  ghost predicate Vanished(c: Change, v: int, k: Bytes) {
    DeletedIn(JobTables(c), v, k) && forall x: Entry | x in Concat(c.written) && UKey(x) == k :: Ver(x) > v
  }

  /** What other tables hold of k is in a level above, and at least as new as what the job's tables hold. */
  ghost predicate NewerOutside(c: Change, k: Bytes) {
    forall l: nat, t, x, y, m | Holds(c.ls, c.store, l, t, x) && t !in Members(c.job) && UKey(x) == k
      && InSources(JobTables(c), y, m) && UKey(y) == k :: l < Dest(c) && Ver(x) >= Ver(y)
  }

  lemma {:induction false} VanishedShows(c: Change, u: iset<Bytes>, v: UInt64, x: Entry)
    requires ChangeOk(c, u) && Vanished(c, v, UKey(x)) && NewerOutside(c, UKey(x)) && !IsTombstone(x)
    ensures Reads(c.ls, c.store, v, x) <==> Reads(After(c), c.store', v, x)
  {
    hide ChangeOk, ReadsAt, After, Vanished, NewerOutside, UKey, Ver, IsTombstone;
    if Reads(c.ls, c.store, v, x) {
      var l: nat, t :| ReadsAt(c.ls, c.store, v, x, l, t);
      if t in Members(c.job) { DeletedNotRead(c, u, v, x, l, t); }
      UntouchedReadsOn(c, u, v, x, l, t);
    }
    if Reads(After(c), c.store', v, x) {
      var l: nat, t :| ReadsAt(After(c), c.store', v, x, l, t);
      NotFromWritten(c, u, v, x, l, t);
      OutsideWins(c, u, v, x, l, t);
      UntouchedWasRead(c, u, v, x, l, t);
    }
  }

  /** A value is not read from the job's tables where they read a tombstone. */
  lemma {:induction false} DeletedNotRead(c: Change, u: iset<Bytes>, v: UInt64, x: Entry, l: nat, t: TableEntry)
    requires ChangeOk(c, u) && Vanished(c, v, UKey(x)) && !IsTombstone(x)
    requires ReadsAt(c.ls, c.store, v, x, l, t)
    ensures t !in Members(c.job)
  {
    hide ChangeOk, Holds, AskedFirst, UKey, Ver, IsTombstone;
    if t in Members(c.job) {
      var k := MemberFound(c, u, l, t, x);
      var d :| LatestIn(JobTables(c), v, d) && UKey(d) == UKey(x) && IsTombstone(d);
      var i: nat :| IsLatest(JobTables(c), v, d, i);
      MemberHolds(c, u, i, d);
      MembersOrder(c, u, k, x, i, d);
      TablesSorted(c, u);
      OneCopyPerSource(JobTables(c), x, d, k);
    }
  }

  lemma {:induction false} NotFromWritten(c: Change, u: iset<Bytes>, v: UInt64, x: Entry, l: nat, t: TableEntry)
    requires ChangeOk(c, u) && Vanished(c, v, UKey(x)) && ReadsAt(After(c), c.store', v, x, l, t)
    ensures !(t in c.outs && l == Dest(c))
  {
    hide ChangeOk, UKey, Ver, After;
    HoldsAfter(c, u, l, t, x);
  }

  lemma {:induction false} OutsideWins(c: Change, u: iset<Bytes>, v: UInt64, x: Entry, l: nat, t: TableEntry)
    requires ChangeOk(c, u) && NewerOutside(c, UKey(x)) && ReadsAt(After(c), c.store', v, x, l, t)
    requires !(t in c.outs && l == Dest(c))
    ensures forall y, k | InSources(JobTables(c), y, k) && UKey(y) == UKey(x) && Ver(y) <= v ::
              Ver(y) < Ver(x) || (Ver(y) == Ver(x) && l < Dest(c))
  {
    hide ChangeOk, UKey, Ver, After, Holds;
    HoldsAfter(c, u, l, t, x);
  }

  // ----- when a key that is deleted vanishes

  /** Deleting k is done by the merge, or there is no value of it up to v to come back. */
  ghost predicate StaysDeleted(s: Sources, k: Bytes, v: int, bound: int) {
    DeleteHolds(s, k, bound) || forall x, j | InSources(s, x, j) && UKey(x) == k && Ver(x) <= v :: IsTombstone(x)
  }

  ghost predicate Settled(s: Sources, k: Bytes, v: int, bound: int) {
    DeletedIn(s, v, k) ==> StaysDeleted(s, k, v, bound)
  }

  /** What a merge without tombstones has written. */
  ghost predicate DroppedOk(c: Change, bound: int) {
    && LiveKept(JobTables(c), Concat(c.written), bound) && NoTombstones(Concat(c.written))
    && DeletesDone(JobTables(c), Concat(c.written), bound)
  }

  lemma {:induction false} DeletedVanishes(c: Change, u: iset<Bytes>, v: UInt64, k: Bytes, bound: int)
    requires ChangeOk(c, u) && DroppedOk(c, bound)
    requires DeletedIn(JobTables(c), v, k) && StaysDeleted(JobTables(c), k, v, bound)
    ensures Vanished(c, v, k)
  {
    hide ChangeOk, LiveKept, DeleteHolds, DeletedIn, UKey, Ver, JobTables;
    forall x: Entry | x in Concat(c.written) && UKey(x) == k ensures Ver(x) > v {
      var m := WrittenCame(c, u, x);
    }
  }

  /** A key that is not deleted reads the same. */
  lemma {:induction false} LiveReadsSame(c: Change, u: iset<Bytes>, v: UInt64, k: Bytes, bound: int)
    requires ChangeOk(c, u) && DroppedOk(c, bound) && bound <= v && !DeletedIn(JobTables(c), v, k)
    ensures SameKeyAt(c, v, k)
  {
    hide ChangeOk, LiveKept, DeletesDone, NoTombstones, IsLatest, UKey, JobTables, DeletedIn, SortedRun;
    TablesSorted(c, u);
    WrittenSorted(c, u);
    CameFrom(c, u);
    LiveIsSame(JobTables(c), Concat(c.written), bound);
    assert SameLatest(JobTables(c), Concat(c.written), v, k);
  }

  lemma {:induction false} CameFrom(c: Change, u: iset<Bytes>)
    requires ChangeOk(c, u)
    ensures FromSources(JobTables(c), Concat(c.written), MAX_UINT64)
  {
    hide FromSources, LevelsSound, JobOk, OutputOk, AllStored, AllKept, AllWritten;
  }

  lemma {:induction false} WrittenSorted(c: Change, u: iset<Bytes>)
    requires ChangeOk(c, u)
    ensures SortedRun(Concat(c.written))
  {
    hide LevelsSound, JobOk, AllStored, AllKept, FromSources, Describes, Precedes, DistinctIds;
    SoundKeys(c.ls, u);
    assert Contents(c.outs, c.store') == c.written;
    ChainOfTables(c.outs, c.store', u);
    UnfoldKeys(u);
    ByteSortedIffSortedRun(Concat(c.written), u);
  }

  /** A job that drops tombstones shows what was shown, if deletes are done and all else is newer. */
  lemma {:induction false} ShowsUnchanged(c: Change, u: iset<Bytes>, v: UInt64, x: Entry, bound: int)
    requires ChangeOk(c, u) && DroppedOk(c, bound) && bound <= v && NewerOutside(c, UKey(x))
    requires Settled(JobTables(c), UKey(x), v, bound)
    ensures Shows(c.ls, c.store, v, x) <==> Shows(After(c), c.store', v, x)
  {
    hide ChangeOk, DroppedOk, NewerOutside, DeletedIn, StaysDeleted, Reads, After, SameKeyAt, Vanished;
    if !IsTombstone(x) {
      if DeletedIn(JobTables(c), v, UKey(x)) {
        DeletedVanishes(c, u, v, UKey(x), bound);
        VanishedShows(c, u, v, x);
      } else {
        LiveReadsSame(c, u, v, UKey(x), bound);
        KeyReadsUnchanged(c, u, v, x);
      }
    }
  }

  lemma {:induction false} LiveFrom(c: Change, v: UInt64, bound: int)
    requires LiveKept(JobTables(c), Concat(c.written), bound) && bound <= v
    ensures LiveAt(c, v)
  {
    hide IsLatest;
  }

  // ----- newer above older

  /** A table that is asked before another holds nothing older of a key. */
  ghost predicate NewerAbove(ls: Levels, store: Store) {
    forall l: nat, a, x, m: nat, b, y | Holds(ls, store, l, a, x) && Holds(ls, store, m, b, y) && UKey(x) == UKey(y)
      && AskedFirst(ls, l, a, m, b) && !(l == m && a == b) :: Ver(x) >= Ver(y)
  }

  ghost predicate InOrder(ls: Levels, store: Store, l: nat, a: TableEntry, x: Entry, m: nat, b: TableEntry, y: Entry) {
    Holds(ls, store, l, a, x) && Holds(ls, store, m, b, y) && UKey(x) == UKey(y) && AskedFirst(ls, l, a, m, b)
    && !(l == m && a == b)
  }

  lemma {:induction false} AboveAt(ls: Levels, store: Store, l: nat, a: TableEntry, x: Entry, m: nat, b: TableEntry,
                                   y: Entry)
    requires NewerAbove(ls, store) && InOrder(ls, store, l, a, x, m, b, y)
    ensures Ver(x) >= Ver(y)
  {
  }

  /** With nothing below the destination, what other tables hold of a job's key is above and newer. */
  lemma {:induction false} AboveIsNewer(c: Change, u: iset<Bytes>, k: Bytes)
    requires ChangeOk(c, u) && NewerAbove(c.ls, c.store) && NothingBelow(c.job, c.ls)
    ensures NewerOutside(c, k)
  {
    hide ChangeOk, NewerAbove, NothingBelow, Holds, AskedFirst, UKey, Ver, JobTables;
    forall l: nat, t, x, y, m | Holds(c.ls, c.store, l, t, x) && t !in Members(c.job) && UKey(x) == k
      && InSources(JobTables(c), y, m) && UKey(y) == k
      ensures l < Dest(c) && Ver(x) >= Ver(y)
    {
      MemberHolds(c, u, m, y);
      OutsiderOrder(c, u, l, t, x, m, y);
      if l > Dest(c) { NotBelow(c, u, l, t, x, m, y); }
      assert Members(c.job)[m] in Members(c.job);
      AboveAt(c.ls, c.store, l, t, x, LevelOf(c.job, m), Members(c.job)[m], y);
    }
  }

  lemma {:induction false} NotBelow(c: Change, u: iset<Bytes>, l: nat, t: TableEntry, x: Entry, m: nat, y: Entry)
    requires ChangeOk(c, u) && NothingBelow(c.job, c.ls) && Holds(c.ls, c.store, l, t, x)
    requires InSources(JobTables(c), y, m) && UKey(x) == UKey(y)
    ensures l <= Dest(c)
  {
    hide OutputOk, AllKept, AllWritten, FromSources, JobOk, UKey, Contents, TablesAt, Describes, Precedes, LevelsSound;
    MemberHolds(c, u, m, y);
    SoundKeys(c.ls, u);
    var a := Members(c.job)[m];
    assert a in Members(c.job);
    assert l > Dest(c) ==> Clear(t, c.job) && Apart(t, a);
    OneTableHasKey(t, c.store[t.id], a, c.store[a.id], x, y, u);
  }

  lemma {:induction false} SameTablesAbove(ls: Levels, ls': Levels, store: Store)
    requires NewerAbove(ls, store) && forall l: nat :: TablesAt(ls', l) == TablesAt(ls, l)
    ensures NewerAbove(ls', store)
  {
    hide NewerAbove, TablesAt, UKey, Ver, Newer;
    forall l: nat, a, x, m: nat, b, y | InOrder(ls', store, l, a, x, m, b, y) ensures Ver(x) >= Ver(y) {
      assert InOrder(ls, store, l, a, x, m, b, y);
      AboveAt(ls, store, l, a, x, m, b, y);
    }
    AboveFrom(ls', store);
  }

  /** A table holds nothing older of a key than the levels do. */
  ghost predicate Latest(ls: Levels, store: Store, t: TableEntry) {
    forall x, l: nat, b, y | t.id in store && x in store[t.id] && Holds(ls, store, l, b, y) && UKey(x) == UKey(y) ::
      Ver(x) >= Ver(y)
  }

  /** So does a table that arrives at level 0 with nothing older. */
  lemma {:induction false} ArrivalAbove(ls: Levels, ls': Levels, store: Store, t: TableEntry)
    requires NewerAbove(ls, store) && Latest(ls, store, t) && FreshId(t.id, ls)
    requires TablesAt(ls', 0) == TablesAt(ls, 0) + [t] && forall l: nat | l > 0 :: TablesAt(ls', l) == TablesAt(ls, l)
    ensures NewerAbove(ls', store)
  {
    hide NewerAbove, TablesAt, UKey, Ver;
    forall l: nat, a, x, m: nat, b, y | InOrder(ls', store, l, a, x, m, b, y) ensures Ver(x) >= Ver(y) {
      var ts := TablesAt(ls, 0);
      if l == 0 && a == t {
        assert Holds(ls, store, m, b, y);
      } else {
        assert t !in ts && !(m == 0 && b == t);
        assert InOrder(ls, store, l, a, x, m, b, y);
        AboveAt(ls, store, l, a, x, m, b, y);
      }
    }
    AboveFrom(ls', store);
  }

  /** Applying a job keeps newer above older. */
  lemma {:induction false} NewerAboveKept(c: Change, u: iset<Bytes>)
    requires ChangeOk(c, u) && NewerAbove(c.ls, c.store)
    ensures NewerAbove(After(c), c.store')
  {
    hide ChangeOk, NewerAbove, Holds, AskedFirst, UKey, Ver, After;
    forall l: nat, a, x, m: nat, b, y | InOrder(After(c), c.store', l, a, x, m, b, y) ensures Ver(x) >= Ver(y) {
      OrderedPair(c, u, l, a, x, m, b, y);
    }
    AboveFrom(After(c), c.store');
  }

  lemma {:induction false} AboveFrom(ls: Levels, store: Store)
    requires forall l: nat, a, x, m: nat, b, y | InOrder(ls, store, l, a, x, m, b, y) :: Ver(x) >= Ver(y)
    ensures NewerAbove(ls, store)
  {
    hide Holds, AskedFirst, UKey, Ver;
    forall l: nat, a, x, m: nat, b, y | Holds(ls, store, l, a, x) && Holds(ls, store, m, b, y) && UKey(x) == UKey(y)
      && AskedFirst(ls, l, a, m, b) && !(l == m && a == b)
      ensures Ver(x) >= Ver(y)
    {
      assert InOrder(ls, store, l, a, x, m, b, y);
    }
  }

  lemma {:induction false} OrderedPair(c: Change, u: iset<Bytes>, l: nat, a: TableEntry, x: Entry, m: nat,
                                       b: TableEntry, y: Entry)
    requires ChangeOk(c, u) && NewerAbove(c.ls, c.store) && InOrder(After(c), c.store', l, a, x, m, b, y)
    ensures Ver(x) >= Ver(y)
  {
    hide ChangeOk, NewerAbove, Holds, AskedFirst, UKey, Ver, After, JobTables;
    HoldsAfter(c, u, l, a, x);
    HoldsAfter(c, u, m, b, y);
    var fromA, fromB := a in c.outs && l == Dest(c), b in c.outs && m == Dest(c);
    if fromA && fromB {
      OneTableAfter(c, u, a, x, b, y);
    } else if fromA {
      var k := WrittenCame(c, u, x);
      OutsiderOrder(c, u, m, b, y, k, x);
      AskedAbove(After(c), m, b, l, a);
      MemberHolds(c, u, k, x);
      assert Members(c.job)[k] in Members(c.job);
      AboveAt(c.ls, c.store, LevelOf(c.job, k), Members(c.job)[k], x, m, b, y);
    } else if fromB {
      var k := WrittenCame(c, u, y);
      OutsiderOrder(c, u, l, a, x, k, y);
      AskedAbove(After(c), l, a, m, b);
      MemberHolds(c, u, k, y);
      assert Members(c.job)[k] in Members(c.job);
      AboveAt(c.ls, c.store, l, a, x, LevelOf(c.job, k), Members(c.job)[k], y);
    } else {
      HoldsParts(c, l, a, x);
      HoldsParts(c, m, b, y);
      OrderKept(c, u, l, a, m, b);
      AboveAt(c.ls, c.store, l, a, x, m, b, y);
    }
  }

  lemma {:induction false} OneTableAfter(c: Change, u: iset<Bytes>, a: TableEntry, x: Entry, b: TableEntry, y: Entry)
    requires ChangeOk(c, u) && Holds(After(c), c.store', Dest(c), a, x) && Holds(After(c), c.store', Dest(c), b, y)
    requires UKey(x) == UKey(y)
    ensures a == b
  {
    hide OutputOk, AllKept, AllWritten, FromSources, JobOk, LevelsSound, AllStored, Holds, UKey, Applied;
    AppliedSound(c.ls, c.job, c.outs, u);
    StoredAfter(c, u);
    OneTable(After(c), c.store', Dest(c), a, x, b, y, u);
  }
}
