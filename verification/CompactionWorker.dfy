/**
 levels/compaction_worker.go: the worker. It reads the tables of a job, merges or moves them, and
 hands back the tables to register. What it hands back is what the scheduler relies on: key ranges
 inside what the job held, in order and apart; and the merged tables hold every snapshot the job's
 tables held.
 */
module CompactionWorker {
  import opened Bytes
  import opened KeyEncoding
  import opened MergeSpec
  import opened CompactionMerge
  import opened MergeRounds
  import opened MergingIterators
  import opened LevelSpec
  import opened LevelIndex
  import opened MasterRecord
  import opened CompactionSpec

  /** The object store: table contents by id. */
  type Store = map<TableID, seq<Entry>>

  /** The entry of the index describes the stored table. */
  ghost predicate Describes(t: TableEntry, es: seq<Entry>, u: iset<Bytes>) {
    && es != [] && ByteSorted(es) && KeysIn(es, u)
    && t.rangeStart == es[0].key && t.rangeEnd == es[|es| - 1].key
    && (forall e | e in es :: t.minVersion <= Ver(e) <= t.maxVersion)
    && (t.deleteRatio == 1.0 <==> AllTombstones(es)) && (t.deleteRatio <= 0.0 <==> NoTombstones(es))
  }

  ghost predicate AllTombstones(es: seq<Entry>) { forall e | e in es :: IsTombstone(e) }

  ghost predicate Stored(ts: Tables, store: Store, u: iset<Bytes>) {
    forall t | t in ts :: t.id in store && Describes(t, store[t.id], u)
  }

  /** In a sorted table of prefix-free keys, unversioned keys do not decrease. */
  lemma {:induction false} KeysGrow(es: seq<Entry>, u: iset<Bytes>, i: nat, k: nat)
    requires PrefixFree(u) && ByteSorted(es) && KeysIn(es, u) && i <= k < |es|
    ensures !Less(UKey(es[k]), UKey(es[i]))
  {
    RankOrderAll();
    if Less(UKey(es[k]), UKey(es[i])) {
      assert es[k] in es && es[i] in es;
      VersionedLess(es[k].key, es[i].key, u);
    }
  }

  lemma {:induction false} DescribedWellFormed(t: TableEntry, es: seq<Entry>, u: iset<Bytes>)
    requires Keys(u) && Describes(t, es, u)
    ensures WellFormed(t, u) && Lo(t) == UKey(es[0]) && Hi(t) == UKey(es[|es| - 1])
    ensures forall e | e in es :: !Less(UKey(e), Lo(t)) && !Less(Hi(t), UKey(e))
  {
    var n := |es| - 1;
    assert es[0] in es && es[n] in es;
    assert CanIncrement(UKey(es[0])) && CanIncrement(UKey(es[n]));
    KeysGrow(es, u, 0, n);
    RankOrderAll();
    forall e | e in es ensures !Less(UKey(e), UKey(es[0])) && !Less(UKey(es[n]), UKey(e)) {
      var k :| 0 <= k < |es| && es[k] == e;
      KeysGrow(es, u, 0, k);
      KeysGrow(es, u, k, n);
    }
  }

  // ----- the runs of a job

  function Contents(ts: Tables, store: Store): (r: seq<seq<Entry>>)
    requires forall t | t in ts :: t.id in store
    ensures |r| == |ts| && forall i | 0 <= i < |r| :: r[i] == store[ts[i].id]
  {
    seq(|ts|, i requires 0 <= i < |ts| => store[ts[i].id])
  }

  /** Each source table is a run of its own; the overlapping tables are one run, in key order. */
  function JobRuns(j: Job, store: Store): seq<seq<seq<Entry>>>
    requires forall t | t in Members(j) :: t.id in store
  {
    assert forall t | t in j.overlap :: t in Members(j);
    seq(|j.source|, i requires 0 <= i < |j.source| => assert j.source[i] in Members(j); [store[j.source[i].id]])
    + if j.overlap == [] then [] else [Contents(j.overlap, store)]
  }

  /** A chain of described, ascending tables is their concatenation, sorted and over u. */
  lemma {:induction false} ChainOfTables(ts: Tables, store: Store, u: iset<Bytes>)
    requires Keys(u) && Stored(ts, store, u) && Ascending(ts)
    ensures var es := ChainView(Contents(ts, store)); ByteSorted(es) && KeysIn(es, u)
    ensures ChainView(Contents(ts, store)) == Concat(Contents(ts, store))
    ensures FromTables(ChainView(Contents(ts, store)), ts, store)
  {
    if ts != [] {
      hide Keys, Describes, Precedes, ByteSorted, KeysIn, Less, FromTables, Contents, ChainView, Concat;
      var t, rest := ts[0], ts[1..];
      assert forall x | x in rest :: x in ts;
      ChainOfTables(rest, store, u);
      DescribedNonEmpty(t, store[t.id], u);
      ChainHead(ts, store);
      var a: seq<Entry> := store[t.id];
      var b: seq<Entry> := ChainView(Contents(rest, store));
      forall x: Entry, y: Entry | x in a && y in b ensures Less(x.key, y.key) { LaterEntry(ts, store, u, a, b, x, y); }
      JoinSorted(a, b);
      KeysInBoth(a, b, u);
      FromMore(ts, store, a, b);
    }
  }

  lemma {:induction false} ChainHead(ts: Tables, store: Store)
    requires ts != [] && (forall t | t in ts :: t.id in store) && store[ts[0].id] != []
    ensures var a, rest := store[ts[0].id], Contents(ts[1..], store);
            ChainView(Contents(ts, store)) == a + ChainView(rest) && Concat(Contents(ts, store)) == a + Concat(rest)
  {
    assert Contents(ts, store)[1..] == Contents(ts[1..], store);
  }

  ghost predicate FromTables(es: seq<Entry>, ts: Tables, store: Store) {
    forall e | e in es :: exists t | t in ts :: t.id in store && e in store[t.id]
  }

  lemma {:induction false} FromMore(ts: Tables, store: Store, a: seq<Entry>, b: seq<Entry>)
    requires ts != [] && ts[0].id in store && a == store[ts[0].id] && FromTables(b, ts[1..], store)
    ensures FromTables(a + b, ts, store)
  {
    forall e: Entry | e in a + b ensures exists t | t in ts :: t.id in store && e in store[t.id] {
      if e in a { assert ts[0] in ts; }
    }
  }

  lemma {:induction false} LaterEntry(ts: Tables, store: Store, u: iset<Bytes>, a: seq<Entry>, b: seq<Entry>, x: Entry,
                                      y: Entry)
    requires Keys(u) && Stored(ts, store, u) && Ascending(ts) && ts != [] && a == store[ts[0].id]
    requires FromTables(b, ts[1..], store) && x in a && y in b
    ensures Less(x.key, y.key)
  {
    hide PrefixFree, Describes, Precedes, Ascending;
    var t :| t in ts[1..] && y in store[t.id];
    assert ts[0] in ts && t in ts;
    LaterTable(ts, t);
    AcrossTables(ts[0], a, t, store[t.id], x, y, u);
  }

  lemma {:induction false} LaterTable(ts: Tables, t: TableEntry)
    requires Ascending(ts) && ts != [] && t in ts[1..]
    ensures Precedes(ts[0], t)
  {
    hide Precedes;
    var k :| 0 <= k < |ts[1..]| && ts[1..][k] == t;
    assert ts[k + 1] == t;
  }

  lemma {:induction false} KeysInBoth(a: seq<Entry>, b: seq<Entry>, u: iset<Bytes>)
    requires KeysIn(a, u) && KeysIn(b, u)
    ensures KeysIn(a + b, u)
  {
  }

  lemma {:induction false} DescribedNonEmpty(t: TableEntry, es: seq<Entry>, u: iset<Bytes>)
    requires Describes(t, es, u)
    ensures es != [] && ByteSorted(es) && KeysIn(es, u)
  {
  }

  lemma {:induction false} JoinSorted(a: seq<Entry>, b: seq<Entry>)
    requires ByteSorted(a) && ByteSorted(b) && forall x, y | x in a && y in b :: Less(x.key, y.key)
    ensures ByteSorted(a + b)
  {
    hide Less;
    var c := a + b;
    forall i, k | 0 <= i < k < |c| ensures Less(c[i].key, c[k].key) {
      if i < |a| <= k { assert a[i] in a && b[k - |a|] in b; }
    }
  }

  lemma {:induction false} AcrossTables(t: TableEntry, a: seq<Entry>, t': TableEntry, b: seq<Entry>, x: Entry, y: Entry,
                                        u: iset<Bytes>)
    requires Keys(u) && Describes(t, a, u) && Describes(t', b, u) && Precedes(t, t') && x in a && y in b
    ensures Less(x.key, y.key)
  {
    hide Describes, PrefixFree;
    DescribedWellFormed(t, a, u);
    DescribedWellFormed(t', b, u);
    DescribedNonEmpty(t, a, u);
    DescribedNonEmpty(t', b, u);
    assert Less(UKey(x), UKey(y)) by { RankOrderAll(); }
    VersionedLess(x.key, y.key, u);
  }

  lemma {:induction false} RunsOk(j: Job, store: Store, u: iset<Bytes>)
    requires Keys(u) && Stored(Members(j), store, u) && Ascending(j.overlap)
    ensures var runs := JobRuns(j, store);
            AllKeysIn(ChainViews(runs), u) && forall i | 0 <= i < |runs| :: ByteSorted(ChainView(runs[i]))
    ensures forall i, e | 0 <= i < |JobRuns(j, store)| && e in ChainView(JobRuns(j, store)[i]) ::
              exists t | t in Members(j) :: e in store[t.id]
  {
    hide Describes, Ascending, ByteSorted, KeysIn, Keys;
    assert forall t | t in j.overlap :: t in Members(j);
    ChainOfTables(j.overlap, store, u);
    var runs := JobRuns(j, store);
    forall i | 0 <= i < |runs|
      ensures ByteSorted(ChainView(runs[i])) && KeysIn(ChainView(runs[i]), u)
      ensures forall e | e in ChainView(runs[i]) :: exists t | t in Members(j) :: e in store[t.id]
    {
      if i < |j.source| {
        var t := j.source[i];
        assert t in Members(j);
        DescribedNonEmpty(t, store[t.id], u);
        ChainOfOne(store[t.id]);
      }
    }
  }

  // ----- the job's tables as sources

  /** A source table's run is the table; the run of the overlap is its tables end to end. */
  lemma {:induction false} RunsAreWhole(j: Job, store: Store, u: iset<Bytes>)
    requires Keys(u) && Stored(Members(j), store, u) && Ascending(j.overlap)
    ensures var (runs, n) := (ChainViews(JobRuns(j, store)), |j.source|);
            && |runs| == n + (if j.overlap == [] then 0 else 1)
            && (forall i | 0 <= i < n :: j.source[i] in Members(j) && runs[i] == store[j.source[i].id])
            && (j.overlap != [] ==> (forall t | t in j.overlap :: t.id in store)
                                    && runs[n] == Concat(Contents(j.overlap, store)))
  {
    hide Describes, Ascending, ByteSorted, KeysIn, Keys;
    assert forall t | t in j.overlap :: t in Members(j);
    ChainOfTables(j.overlap, store, u);
    forall i | 0 <= i < |j.source| ensures j.source[i] in Members(j)
      && ChainViews(JobRuns(j, store))[i] == store[j.source[i].id] {
      assert j.source[i] in Members(j);
      ChainOfOne(store[j.source[i].id]);
    }
  }

  /** Where the entries of table m are among the runs. */
  function RunOf(j: Job, m: nat): nat { if m < |j.source| then m else |j.source| }

  lemma {:induction false} InRun(j: Job, store: Store, u: iset<Bytes>, x: Entry, m: int)
    requires Keys(u) && Stored(Members(j), store, u) && Ascending(j.overlap)
    requires InSources(Contents(Members(j), store), x, m)
    ensures InSources(ChainViews(JobRuns(j, store)), x, RunOf(j, m))
  {
    hide Describes, Ascending, Keys, JobRuns;
    RunsAreWhole(j, store, u);
    var n := |j.source|;
    if m >= n {
      assert Contents(j.overlap, store)[m - n] == Contents(Members(j), store)[m];
      ConcatMembers(Contents(j.overlap, store), x);
    }
  }

  lemma {:induction false} FromRun(j: Job, store: Store, u: iset<Bytes>, x: Entry, i: int) returns (m: nat)
    requires Keys(u) && Stored(Members(j), store, u) && Ascending(j.overlap)
    requires InSources(ChainViews(JobRuns(j, store)), x, i)
    ensures InSources(Contents(Members(j), store), x, m) && RunOf(j, m) == i
  {
    hide Describes, Ascending, Keys, JobRuns;
    RunsAreWhole(j, store, u);
    var n := |j.source|;
    if i < n {
      m := i;
    } else {
      ConcatMembers(Contents(j.overlap, store), x);
      var k :| 0 <= k < |j.overlap| && x in Contents(j.overlap, store)[k];
      m := n + k;
      assert Contents(Members(j), store)[m] == Contents(j.overlap, store)[k];
    }
  }

  /** In an ascending run a key is in one table only. */
  lemma {:induction false} OneTableHasKey(t: TableEntry, a: seq<Entry>, t': TableEntry, b: seq<Entry>, x: Entry,
                                          y: Entry, u: iset<Bytes>)
    requires Keys(u) && Describes(t, a, u) && Describes(t', b, u) && x in a && y in b && UKey(x) == UKey(y)
    ensures !Apart(t, t')
  {
    hide Describes, PrefixFree, CanIncrement;
    DescribedWellFormed(t, a, u);
    DescribedWellFormed(t', b, u);
    RankOrderAll();
  }

  lemma {:induction false} OverlapHasKeyOnce(j: Job, store: Store, u: iset<Bytes>, x: Entry, y: Entry, m: nat, k: nat)
    requires Keys(u) && Stored(Members(j), store, u) && Ascending(j.overlap) && UKey(x) == UKey(y)
    requires InSources(Contents(Members(j), store), x, m) && InSources(Contents(Members(j), store), y, k)
    requires m >= |j.source| && k >= |j.source|
    ensures m == k
  {
    hide Describes, Keys, Apart;
    var n, a, b := |j.source|, Members(j)[m], Members(j)[k];
    assert a == j.overlap[m - n] && b == j.overlap[k - n] && a in Members(j) && b in Members(j);
    OneTableHasKey(a, store[a.id], b, store[b.id], x, y, u);
    if m != k { NotBothWays(j.overlap, m - n, k - n); }
  }

  lemma {:induction false} NotBothWays(ts: Tables, a: nat, b: nat)
    requires Ascending(ts) && a < |ts| && b < |ts| && a != b
    ensures Apart(ts[a], ts[b])
  {
    hide Less;
  }

  lemma {:induction false} LatestOfTables(j: Job, store: Store, u: iset<Bytes>, v: int, x: Entry)
    requires Keys(u) && Stored(Members(j), store, u) && Ascending(j.overlap)
    ensures (exists i: nat :: IsLatest(ChainViews(JobRuns(j, store)), v, x, i))
            <==> exists m: nat :: IsLatest(Contents(Members(j), store), v, x, m)
  {
    hide Describes, Ascending, Keys, JobRuns, UKey, Ver, Contents;
    var runs, tables := ChainViews(JobRuns(j, store)), Contents(Members(j), store);
    if i: nat :| IsLatest(runs, v, x, i) {
      var m := FromRun(j, store, u, x, i);
      forall y, k | InSources(tables, y, k) && UKey(y) == UKey(x) && Ver(y) <= v
        ensures Ver(y) < Ver(x) || (Ver(y) == Ver(x) && m <= k)
      {
        InRun(j, store, u, y, k);
        if m >= |j.source| && k >= |j.source| { OverlapHasKeyOnce(j, store, u, x, y, m, k); }
      }
      assert IsLatest(tables, v, x, m);
    }
    if m: nat :| IsLatest(tables, v, x, m) {
      InRun(j, store, u, x, m);
      forall y, k | InSources(runs, y, k) && UKey(y) == UKey(x) && Ver(y) <= v
        ensures Ver(y) < Ver(x) || (Ver(y) == Ver(x) && RunOf(j, m) <= k)
      {
        var l := FromRun(j, store, u, y, k);
      }
      assert IsLatest(runs, v, x, RunOf(j, m));
    }
  }

  /** A delete that holds of the tables holds of the runs. */
  lemma {:induction false} DeleteHoldsOfRuns(j: Job, store: Store, u: iset<Bytes>, k: Bytes, bound: int)
    requires Keys(u) && Stored(Members(j), store, u) && Ascending(j.overlap)
    requires DeleteHolds(Contents(Members(j), store), k, bound)
    ensures DeleteHolds(ChainViews(JobRuns(j, store)), k, bound)
  {
    hide Describes, Ascending, Keys, JobRuns, UKey, Ver, Contents;
    var runs, tables := ChainViews(JobRuns(j, store)), Contents(Members(j), store);
    var t, m: nat :| Newest(tables, t, m) && UKey(t) == k && IsTombstone(t) && Ver(t) < bound;
    InRun(j, store, u, t, m);
    forall y, i | InSources(runs, y, i) && UKey(y) == k
      ensures Ver(y) < Ver(t) || (Ver(y) == Ver(t) && RunOf(j, m) <= i)
    {
      var l := FromRun(j, store, u, y, i);
    }
    assert Newest(runs, t, RunOf(j, m));
    forall x, i | InSources(runs, x, i) && UKey(x) == k && !IsTombstone(x) ensures IsFirst(runs, x, i) {
      FirstOfRun(j, store, u, x, i);
    }
  }

  lemma {:induction false} FirstOfRun(j: Job, store: Store, u: iset<Bytes>, x: Entry, i: int)
    requires Keys(u) && Stored(Members(j), store, u) && Ascending(j.overlap)
    requires InSources(ChainViews(JobRuns(j, store)), x, i)
    requires forall l | InSources(Contents(Members(j), store), x, l) :: IsFirst(Contents(Members(j), store), x, l)
    ensures IsFirst(ChainViews(JobRuns(j, store)), x, i)
  {
    hide Describes, Ascending, Keys, JobRuns, UKey, Ver, Contents;
    var runs, tables := ChainViews(JobRuns(j, store)), Contents(Members(j), store);
    var m := FromRun(j, store, u, x, i);
    forall y | InSources(runs, y, i) && UKey(y) == UKey(x) ensures Ver(y) <= Ver(x) {
      var l := FromRun(j, store, u, y, i);
      if m >= |j.source| { OverlapHasKeyOnce(j, store, u, x, y, m, l); }
    }
  }

  /** What is true of snapshots and origin of the runs is true of the tables. */
  lemma {:induction false} TablesForRuns(j: Job, store: Store, u: iset<Bytes>, out: seq<Entry>, bound: int)
    requires Keys(u) && Stored(Members(j), store, u) && Ascending(j.overlap)
    ensures SameSnapshots(ChainViews(JobRuns(j, store)), out, bound) ==>
              SameSnapshots(Contents(Members(j), store), out, bound)
    ensures FromSources(ChainViews(JobRuns(j, store)), out, MAX_UINT64) ==>
              FromSources(Contents(Members(j), store), out, MAX_UINT64)
    ensures LiveKept(ChainViews(JobRuns(j, store)), out, bound) ==> LiveKept(Contents(Members(j), store), out, bound)
    ensures LiveSame(ChainViews(JobRuns(j, store)), out, bound) ==> LiveSame(Contents(Members(j), store), out, bound)
    ensures DeletesDone(ChainViews(JobRuns(j, store)), out, bound) ==>
              DeletesDone(Contents(Members(j), store), out, bound)
  {
    hide Describes, Ascending, Keys, JobRuns, IsLatest, Contents, Ver, DeleteHolds;
    var runs, tables := ChainViews(JobRuns(j, store)), Contents(Members(j), store);
    if SameSnapshots(runs, out, bound) {
      forall v, x | bound <= v <= MAX_UINT64 ensures (exists i: nat :: IsLatest(tables, v, x, i)) <==> IsLatest([out],
        v, x, 0) {
        LatestOfTables(j, store, u, v, x);
      }
    }
    if FromSources(runs, out, MAX_UINT64) {
      forall x | x in out ensures exists m :: InSources(tables, x, m) && Ver(x) <= MAX_UINT64 {
        var i :| InSources(runs, x, i) && Ver(x) <= MAX_UINT64;
        var m := FromRun(j, store, u, x, i);
      }
    }
    if LiveKept(runs, out, bound) {
      forall v, x | bound <= v <= MAX_UINT64 && !IsTombstone(x) && exists i: nat :: IsLatest(tables, v, x, i)
        ensures IsLatest([out], v, x, 0)
      {
        LatestOfTables(j, store, u, v, x);
      }
    }
    if LiveSame(runs, out, bound) {
      forall v, k, x: Entry | bound <= v <= MAX_UINT64 && !DeletedIn(tables, v, k) && UKey(x) == k
        ensures LatestIn(tables, v, x) <==> IsLatest([out], v, x, 0)
      {
        LiveSameOfRuns(j, store, u, out, bound, v, x);
      }
    }
    if DeletesDone(runs, out, bound) {
      forall k, x | DeleteHolds(tables, k, bound) && x in out ensures UKey(x) != k {
        DeleteHoldsOfRuns(j, store, u, k, bound);
      }
    }
  }

  lemma {:induction false} LiveSameOfRuns(j: Job, store: Store, u: iset<Bytes>, out: seq<Entry>, bound: int, v: int,
                                          x: Entry)
    requires Keys(u) && Stored(Members(j), store, u) && Ascending(j.overlap) && bound <= v <= MAX_UINT64
    requires LiveSame(ChainViews(JobRuns(j, store)), out, bound)
    requires !DeletedIn(Contents(Members(j), store), v, UKey(x))
    ensures LatestIn(Contents(Members(j), store), v, x) <==> IsLatest([out], v, x, 0)
  {
    hide Describes, Ascending, Keys, JobRuns, IsLatest, Contents, UKey, IsTombstone;
    var runs, tables := ChainViews(JobRuns(j, store)), Contents(Members(j), store);
    forall t ensures LatestIn(runs, v, t) <==> LatestIn(tables, v, t) { LatestOfTables(j, store, u, v, t); }
    assert SameLatest(runs, out, v, UKey(x));
  }

  lemma {:induction false} ChainOfOne(es: seq<Entry>)
    ensures ChainView([es]) == es
  {
    assert [es][1..] == [];
    if es != [] { assert ChainView([es]) == es + ChainView([es][1..]); }
  }

  // ----- what the worker writes

  /** The version range and share of deletes that sst.BuildSSTable and DeleteRatio report. */
  method TableStats(es: seq<Entry>) returns (minVersion: UInt64, maxVersion: UInt64, deleteRatio: real)
    requires es != []
    ensures (forall e | e in es :: minVersion <= Ver(e) <= maxVersion)
    ensures (exists e | e in es :: Ver(e) == minVersion) && exists e | e in es :: Ver(e) == maxVersion
    ensures 0.0 <= deleteRatio <= 1.0 && (deleteRatio == 0.0 <==> forall e | e in es :: !IsTombstone(e))
    ensures deleteRatio == 1.0 <==> AllTombstones(es)
  {
    hide Ver, IsTombstone;
    minVersion, maxVersion := MAX_UINT64, 0;
    var deletes := 0;
    for i := 0 to |es|
      invariant i == 0 ==> minVersion == MAX_UINT64 && maxVersion == 0
      invariant forall k | 0 <= k < i :: minVersion <= Ver(es[k]) <= maxVersion
      invariant i > 0 ==> exists k | 0 <= k < i :: Ver(es[k]) == minVersion
      invariant i > 0 ==> exists k | 0 <= k < i :: Ver(es[k]) == maxVersion
      invariant 0 <= deletes <= i && (deletes == 0 <==> forall k | 0 <= k < i :: !IsTombstone(es[k]))
      invariant deletes == i <==> forall k | 0 <= k < i :: IsTombstone(es[k])
    {
      if IsTombstone(es[i]) { deletes := deletes + 1; }
      var v := Ver(es[i]);
      ghost var lo, hi := minVersion, maxVersion;
      if v > maxVersion || i == 0 { maxVersion := v; }
      if v < minVersion || i == 0 { minVersion := v; }
      Extremes(es, i, lo, hi, minVersion, maxVersion);
    }
    deleteRatio := deletes as real / |es| as real;
    assert deletes == 0 <==> forall e | e in es :: !IsTombstone(e);
    assert deletes == |es| <==> AllTombstones(es);
    Ratio(deletes, |es|);
  }

  lemma {:induction false} Ratio(deletes: nat, n: nat)
    requires 0 <= deletes <= n && n > 0
    ensures 0.0 <= deletes as real / n as real <= 1.0
    ensures deletes as real / n as real == 0.0 <==> deletes == 0
    ensures deletes as real / n as real == 1.0 <==> deletes == n
  {
    var r := deletes as real / n as real;
    assert r * n as real == deletes as real;
  }

  lemma {:induction false} Extremes(es: seq<Entry>, i: nat, lo: UInt64, hi: UInt64, lo': UInt64, hi': UInt64)
    requires i < |es| && (i == 0 ==> lo' == hi' == Ver(es[0]))
    requires i > 0 ==> (exists k | 0 <= k < i :: Ver(es[k]) == lo) && exists k | 0 <= k < i :: Ver(es[k]) == hi
    requires i > 0 ==> (lo' == lo || lo' == Ver(es[i])) && (hi' == hi || hi' == Ver(es[i]))
    ensures (exists k | 0 <= k < i + 1 :: Ver(es[k]) == lo') && exists k | 0 <= k < i + 1 :: Ver(es[k]) == hi'
  {
    hide Ver;
    if i > 0 {
      var a :| 0 <= a < i && Ver(es[a]) == lo;
      var b :| 0 <= b < i && Ver(es[b]) == hi;
      assert Ver(es[if lo' == lo then a else i]) == lo' && Ver(es[if hi' == hi then b else i]) == hi';
    } else {
      assert Ver(es[0]) == lo';
    }
  }

  /** Table ids come from a generator that never repeats itself or an id in use. */
  ghost predicate Mints(mint: nat -> TableID, ls: Levels) {
    && (forall i: nat, k: nat | i != k :: mint(i) != mint(k))
    && (forall i: nat :: FreshId(mint(i), ls))
  }

  /** The index entries for the tables that were written, as processJob makes them. */
  method MakeEntries(written: seq<seq<Entry>>, mint: nat -> TableID, sizeOf: seq<Entry> -> nat, ghost u: iset<Bytes>)
    returns (outs: Tables)
    requires forall i | 0 <= i < |written| :: written[i] != [] && ByteSorted(written[i]) && KeysIn(written[i], u)
    ensures |outs| == |written|
    ensures forall i | 0 <= i < |outs| :: outs[i].id == mint(i) && Describes(outs[i], written[i], u)
  {
    hide Ver, ByteSorted, KeysIn;
    outs := [];
    for i := 0 to |written|
      invariant |outs| == i
      invariant forall k | 0 <= k < i :: outs[k].id == mint(k) && Describes(outs[k], written[k], u)
    {
      var es := written[i];
      var minVersion, maxVersion, deleteRatio := TableStats(es);
      outs := outs + [TableEntry(mint(i), es[0].key, es[|es| - 1].key, minVersion, maxVersion, deleteRatio, |es|,
        sizeOf(es))];
    }
  }

  /** moveTables: the tables themselves, or nothing for a table of deletes that goes to the last level. */
  method MoveTables(j: Job) returns (outs: Tables)
    requires |j.source| == 1
    ensures outs == if j.source[0].deleteRatio == 1.0 && !j.preserveTombstones then [] else j.source
  {
    outs := [];
    for i := 0 to |j.source|
      invariant outs == if i == 1 && !(j.source[0].deleteRatio == 1.0 && !j.preserveTombstones) then j.source else []
    {
      if !(j.source[i].deleteRatio == 1.0 && !j.preserveTombstones) { outs := outs + [j.source[i]]; }
    }
  }

  lemma {:induction false} MovedOutputOk(j: Job, outs: Tables, ls: Levels, u: iset<Bytes>)
    requires LevelsSound(ls, u) && JobOk(j, ls, u) && j.levelFrom > 0 && (outs == [] || outs == j.source)
    ensures OutputOk(j, outs, ls, u)
  {
    hide AllFlatOk, UniqueIds, HoldsOverlap, TablesAt, Touches, PrefixFree;
    RankOrderAll();
    forall t | t in outs ensures WellFormed(t, u) && Within(t, j) { assert t in Members(j); }
  }

  lemma {:induction false} MergedOutputOk(j: Job, store: Store, written: seq<seq<Entry>>, outs: Tables,
                                          mint: nat -> TableID,
                                          ls: Levels, u: iset<Bytes>)
    requires LevelsSound(ls, u) && JobOk(j, ls, u) && Stored(Members(j), store, u) && Mints(mint, ls)
    requires TablesApart(written) && FromSources(ChainViews(JobRuns(j, store)), Concat(written), MAX_UINT64)
    requires |outs| == |written|
    requires forall i | 0 <= i < |outs| :: outs[i].id == mint(i) && Describes(outs[i], written[i], u)
    ensures OutputOk(j, outs, ls, u) && forall t | t in outs :: FreshId(t.id, ls)
  {
    hide LevelsSound, Describes, Within, WellFormed, TablesApart, FromSources, Keys, JobOk, FreshId, Stored;
    SoundKeys(ls, u);
    forall i, k | 0 <= i < k < |outs| ensures Precedes(outs[i], outs[k]) {
      WrittenApart(written, outs[i], i, outs[k], k, u);
    }
    forall t | t in outs ensures WellFormed(t, u) && Within(t, j) && FreshId(t.id, ls) {
      var i :| 0 <= i < |outs| && outs[i] == t;
      DescribedWellFormed(t, written[i], u);
      WrittenWithin(j, store, written, i, t, ls, u);
    }
  }

  lemma {:induction false} WrittenApart(written: seq<seq<Entry>>, t: TableEntry, i: nat, t': TableEntry, k: nat,
                                        u: iset<Bytes>)
    requires Keys(u) && TablesApart(written) && i < k < |written| && Describes(t, written[i], u)
    requires Describes(t', written[k], u)
    ensures Precedes(t, t')
  {
    hide Keys, KeysIn, ByteSorted;
    DescribedWellFormed(t, written[i], u);
    DescribedWellFormed(t', written[k], u);
    var a, b := written[i], written[k];
    assert a[|a| - 1] in a && b[0] in b;
  }

  lemma {:induction false} WrittenWithin(j: Job, store: Store, written: seq<seq<Entry>>, i: nat, t: TableEntry,
                                         ls: Levels, u: iset<Bytes>)
    requires Keys(u) && JobOk(j, ls, u) && Stored(Members(j), store, u)
    requires FromSources(ChainViews(JobRuns(j, store)), Concat(written), MAX_UINT64)
    requires i < |written| && Describes(t, written[i], u)
    ensures Within(t, j)
  {
    hide Describes, JobOk, Stored, Keys, Less;
    DescribedWellFormed(t, written[i], u);
    DescribedNonEmpty(t, written[i], u);
    var es := written[i];
    var a := CameFrom(j, store, written, i, es[0], ls, u);
    var b := CameFrom(j, store, written, i, es[|es| - 1], ls, u);
    StoredAt(j, store, a, u);
    StoredAt(j, store, b, u);
    DescribedWellFormed(a, store[a.id], u);
    DescribedWellFormed(b, store[b.id], u);
  }

  lemma {:induction false} StoredAt(j: Job, store: Store, t: TableEntry, u: iset<Bytes>)
    requires Stored(Members(j), store, u) && t in Members(j)
    ensures t.id in store && Describes(t, store[t.id], u)
  {
  }

  /** Every entry written was in some table of the job. */
  lemma {:induction false} CameFrom(j: Job, store: Store, written: seq<seq<Entry>>, i: nat, e: Entry, ls: Levels,
                                    u: iset<Bytes>)
    returns (t: TableEntry)
    requires Keys(u) && JobOk(j, ls, u) && Stored(Members(j), store, u)
    requires FromSources(ChainViews(JobRuns(j, store)), Concat(written), MAX_UINT64)
    requires i < |written| && e in written[i]
    ensures t in Members(j) && t.id in store && e in store[t.id]
  {
    hide Describes, Keys, Ver, ChainView, JobRuns;
    ConcatMembers(written, e);
    RunsOk(j, store, u);
    var runs := JobRuns(j, store);
    var k :| InSources(ChainViews(runs), e, k) && Ver(e) <= MAX_UINT64;
    assert e in ChainView(runs[k]);
    t :| t in Members(j) && e in store[t.id];
  }

  lemma {:induction false} WrittenOk(written: seq<seq<Entry>>, j: Job, store: Store, ls: Levels, u: iset<Bytes>, i: nat)
    requires Keys(u) && JobOk(j, ls, u) && Stored(Members(j), store, u) && TablesApart(written)
    requires ByteSorted(Concat(written)) && FromSources(ChainViews(JobRuns(j, store)), Concat(written), MAX_UINT64)
    requires i < |written|
    ensures written[i] != [] && ByteSorted(written[i]) && KeysIn(written[i], u)
  {
    hide Describes, Keys, FromSources, JobOk, JobRuns, Stored;
    PartSorted(written, i);
    forall e: Entry | e in written[i] ensures UKey(e) in u {
      var t := CameFrom(j, store, written, i, e, ls, u);
      StoredAt(j, store, t, u);
      DescribedNonEmpty(t, store[t.id], u);
    }
  }

  lemma {:induction false} PartSorted(written: seq<seq<Entry>>, i: nat)
    requires ByteSorted(Concat(written)) && i < |written|
    ensures ByteSorted(written[i])
  {
    var all, es := Concat(written), written[0];
    assert all == es + Concat(written[1..]);
    if i == 0 {
      assert forall k | 0 <= k < |es| :: es[k] == all[k];
    } else {
      var rest: seq<Entry> := Concat(written[1..]);
      assert forall k | 0 <= k < |rest| :: rest[k] == all[|es| + k];
      PartSorted(written[1..], i - 1);
    }
  }

  /**
   processJob: what it hands back is fit to be applied, whatever other jobs did meanwhile. What a
   merge writes comes from the job's tables, and with tombstones kept it reads the same as they do in
   every snapshot at or above the last flushed version. No value is lost that such a snapshot reads. Where
   tombstones are not kept none is written, and keys whose delete holds are gone. A table that is not
   moved held only deletes.
   */
  method ProcessJob(j: Job, store: Store, mint: nat -> TableID, sizeOf: seq<Entry> -> nat, maxTableSize: nat,
                    lastFlushedVersion: int, ghost ls: Levels, ghost u: iset<Bytes>)
    returns (outs: Tables, written: seq<seq<Entry>>)
    requires -1 <= lastFlushedVersion < TWO63 && maxTableSize > 21
    requires LevelsSound(ls, u) && JobOk(j, ls, u) && Stored(Members(j), store, u) && Mints(mint, ls)
    ensures OutputOk(j, outs, ls, u)
    ensures j.isMove ==> written == []
    ensures !j.isMove ==> |outs| == |written| && forall i | 0 <= i < |outs| :: Describes(outs[i], written[i], u)
    ensures !j.isMove ==> FromSources(Contents(Members(j), store), Concat(written), MAX_UINT64)
    ensures !j.isMove ==> forall t | t in outs :: FreshId(t.id, ls)
    ensures !j.isMove && j.preserveTombstones ==>
              SameSnapshots(Contents(Members(j), store), Concat(written), MinNonCompactable(lastFlushedVersion))
    ensures !j.isMove ==>
              LiveKept(Contents(Members(j), store), Concat(written), MinNonCompactable(lastFlushedVersion))
    ensures !j.isMove ==>
              LiveSame(Contents(Members(j), store), Concat(written), MinNonCompactable(lastFlushedVersion))
    ensures !j.isMove && !j.preserveTombstones ==>
              NoTombstones(Concat(written))
              && DeletesDone(Contents(Members(j), store), Concat(written), MinNonCompactable(lastFlushedVersion))
    ensures j.isMove && outs == [] ==>
              !j.preserveTombstones && |j.source| == 1 && AllTombstones(store[j.source[0].id])
    ensures j.isMove && outs != [] ==> outs == j.source
  {
    hide LevelsSound, JobOk, Describes, OutputOk, TablesApart, FromSources, ByteSorted, SameSnapshots, Complete, KeysIn;
    hide JobRuns, Keys, Mints, FreshId, LiveKept, LiveSame, LiveComplete, NoTombstones, DeletesDone, CutToSize;
    SoundKeys(ls, u);
    JobShape(j, ls, u);
    if j.isMove {
      outs := MoveTables(j);
      written := [];
      MovedOutputOk(j, outs, ls, u);
      OnlyTombstones(j, store, u);
      return;
    }
    RunsOk(j, store, u);
    UnfoldKeys(u);
    ghost var bound := MinNonCompactable(lastFlushedVersion);
    written := MergeSSTables(JobRuns(j, store), j.preserveTombstones, maxTableSize, lastFlushedVersion, u);
    forall i | 0 <= i < |written| ensures written[i] != [] && ByteSorted(written[i]) && KeysIn(written[i], u) {
      WrittenOk(written, j, store, ls, u, i);
    }
    outs := MakeEntries(written, mint, sizeOf, u);
    MergedOutputOk(j, store, written, outs, mint, ls, u);
    TablesForRuns(j, store, u, Concat(written), bound);
  }

  lemma {:induction false} OnlyTombstones(j: Job, store: Store, u: iset<Bytes>)
    requires Stored(Members(j), store, u) && |j.source| == 1
    ensures j.source[0] in Members(j) && (j.source[0].deleteRatio == 1.0 <==> AllTombstones(store[j.source[0].id]))
  {
    assert j.source[0] in Members(j);
  }

  lemma {:induction false} JobShape(j: Job, ls: Levels, u: iset<Bytes>)
    requires Keys(u) && JobOk(j, ls, u)
    ensures j.isMove ==> |j.source| == 1 && j.levelFrom > 0
    ensures Ascending(j.overlap)
  {
  }
}
