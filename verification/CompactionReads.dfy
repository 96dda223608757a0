/**
 What a read sees across all levels, and that compaction does not change it. A read of a key at a
 version takes the newest version of the key that is not above it; of equal ones, the one of the
 upper level, and within level 0 the one of the newest table. Applying a finished job that keeps
 tombstones changes no read at or above the bound of its merge.
 */
module CompactionReads {
  import opened Bytes
  import opened KeyEncoding
  import opened MergeSpec
  import opened MergeRounds
  import opened CompactionMerge
  import opened LevelSpec
  import opened LevelIndex
  import opened MasterRecord
  import opened CompactionSpec
  import opened CompactionWorker

  // ----- reads

  ghost predicate AllStored(ls: Levels, store: Store, u: iset<Bytes>) {
    forall l: nat, t | t in TablesAt(ls, l) :: t.id in store && Describes(t, store[t.id], u)
  }

  /** Table t of level l holds e. */
  ghost predicate Holds(ls: Levels, store: Store, l: nat, t: TableEntry, e: Entry) {
    t in TablesAt(ls, l) && t.id in store && e in store[t.id]
  }

  /** Level 0 grows at its end. */
  ghost predicate Newer(ts: Tables, a: TableEntry, b: TableEntry) {
    exists p, q | 0 <= q <= p < |ts| :: ts[p] == a && ts[q] == b
  }

  /** The order in which tables are asked. */
  ghost predicate AskedFirst(ls: Levels, l: nat, a: TableEntry, m: nat, b: TableEntry) {
    l < m || (l == m && (l == 0 ==> Newer(TablesAt(ls, 0), a, b)))
  }

  ghost predicate ReadsAt(ls: Levels, store: Store, v: int, e: Entry, l: nat, t: TableEntry) {
    && Holds(ls, store, l, t, e) && Ver(e) <= v
    && forall m: nat, t', y | Holds(ls, store, m, t', y) && UKey(y) == UKey(e) && Ver(y) <= v ::
         Ver(y) < Ver(e) || (Ver(y) == Ver(e) && AskedFirst(ls, l, t, m, t'))
  }

  /** A read of e's key at version v finds e. */
  ghost predicate Reads(ls: Levels, store: Store, v: int, e: Entry) {
    exists l: nat, t :: ReadsAt(ls, store, v, e, l, t)
  }

  /** Above level 0 a key is in one table of a level only. */
  lemma {:induction false} OneTable(ls: Levels, store: Store, l: nat, a: TableEntry, x: Entry, b: TableEntry, y: Entry,
                                    u: iset<Bytes>)
    requires LevelsSound(ls, u) && AllStored(ls, store, u) && l > 0
    requires Holds(ls, store, l, a, x) && Holds(ls, store, l, b, y) && UKey(x) == UKey(y)
    ensures a == b
  {
    hide Describes, Keys, UniqueIds, Apart, AllFlatOk, UKey;
    OneTableHasKey(a, store[a.id], b, store[b.id], x, y, u);
    AscendingAt(ls, l, u);
    var ts := TablesAt(ls, l);
    var p :| 0 <= p < |ts| && ts[p] == a;
    var q :| 0 <= q < |ts| && ts[q] == b;
    if p != q { NotBothWays(ts, p, q); }
  }

  // ----- a job and its output

  /** A finished job, what was written for it, and the stored tables before and after. */
  datatype Change = Change(ls: Levels, job: Job, outs: Tables, written: seq<seq<Entry>>, store: Store, store': Store)

  ghost function After(c: Change): Levels { Applied(c.ls, c.job, c.outs) }

  function Dest(c: Change): nat { c.job.levelFrom + 1 }

  ghost predicate ChangeOk(c: Change, u: iset<Bytes>) {
    && LevelsSound(c.ls, u) && JobOk(c.job, c.ls, u) && OutputOk(c.job, c.outs, c.ls, u)
    && AllStored(c.ls, c.store, u) && AllKept(c) && AllWritten(c, u) && HasTables(c)
    && FromSources(JobTables(c), Concat(c.written), MAX_UINT64)
  }

  /** Tables that were stored stay as they were. */
  ghost predicate AllKept(c: Change) {
    forall l: nat, t | t in TablesAt(c.ls, l) :: t.id in c.store && t.id in c.store' && c.store'[t.id] == c.store[t.id]
  }

  ghost predicate AllWritten(c: Change, u: iset<Bytes>) {
    && |c.outs| == |c.written|
    && forall i | 0 <= i < |c.outs| ::
         c.outs[i].id in c.store' && c.store'[c.outs[i].id] == c.written[i] && Describes(c.outs[i], c.written[i], u)
  }

  ghost predicate HasTables(c: Change) { forall t | t in Members(c.job) :: t.id in c.store }

  ghost function JobTables(c: Change): Sources {
    if HasTables(c) then Contents(Members(c.job), c.store) else []
  }

  /** At version v the written tables read as the job's tables did. */
  ghost predicate SameAt(c: Change, v: int) {
    forall x :: (exists i: nat :: IsLatest(JobTables(c), v, x, i)) <==> IsLatest([Concat(c.written)], v, x, 0)
  }

  /** The same of one key. */
  ghost predicate SameKeyAt(c: Change, v: int, k: Bytes) {
    forall x: Entry | UKey(x) == k ::
      (exists i: nat :: IsLatest(JobTables(c), v, x, i)) <==> IsLatest([Concat(c.written)], v, x, 0)
  }

  /** If the job's tables read e, so do the written ones. */
  ghost predicate Carried(c: Change, v: int, e: Entry) {
    (exists i: nat :: IsLatest(JobTables(c), v, e, i)) ==> IsLatest([Concat(c.written)], v, e, 0)
  }

  /** What was written has a version of y's key that is at least as new and not above v. */
  ghost predicate Represented(c: Change, v: int, y: Entry) {
    exists z :: z in Concat(c.written) && UKey(z) == UKey(y) && Ver(y) <= Ver(z) <= v
  }

  /** The level a job's table is in. */
  function LevelOf(j: Job, m: nat): nat { if m < |j.source| then j.levelFrom else j.levelFrom + 1 }

  lemma {:induction false} MemberHolds(c: Change, u: iset<Bytes>, m: nat, e: Entry)
    requires ChangeOk(c, u) && InSources(JobTables(c), e, m)
    ensures m < |Members(c.job)| && Holds(c.ls, c.store, LevelOf(c.job, m), Members(c.job)[m], e)
  {
    hide LevelsSound, OutputOk, AllStored, AllKept, AllWritten, FromSources, HoldsOverlap, SingleSource, TablesAt;
    hide NewestFirst;
    var j, n := c.job, |c.job.source|;
    var t := Members(j)[m];
    assert t in Members(j) && JobTables(c)[m] == c.store[t.id];
    if m < n { assert t == j.source[m] && t in j.source; } else { assert t == j.overlap[m - n] && t in j.overlap; }
  }

  /** A table of the job found at some level is there by its place in the job. */
  lemma {:induction false} MemberFound(c: Change, u: iset<Bytes>, l: nat, t: TableEntry, e: Entry) returns (m: nat)
    requires ChangeOk(c, u) && Holds(c.ls, c.store, l, t, e) && t in Members(c.job)
    ensures InSources(JobTables(c), e, m) && Members(c.job)[m] == t && LevelOf(c.job, m) == l
  {
    hide OutputOk, AllStored, AllKept, AllWritten, FromSources, AllFlatOk, Keys, JobOk, TablesAt;
    m :| 0 <= m < |Members(c.job)| && Members(c.job)[m] == t;
    assert JobTables(c)[m] == c.store[t.id];
    MemberHolds(c, u, m, e);
  }

  lemma {:induction false} DistinctAt(ts: Tables, p: nat, q: nat)
    requires DistinctIds(ts) && p < |ts| && q < |ts| && ts[p] == ts[q]
    ensures p == q
  {
  }

  lemma {:induction false} NewerAt(ts: Tables, p: nat, q: nat)
    requires DistinctIds(ts) && p < |ts| && q < |ts|
    ensures Newer(ts, ts[p], ts[q]) <==> q <= p
  {
    if Newer(ts, ts[p], ts[q]) {
      var a, b :| 0 <= b <= a < |ts| && ts[a] == ts[p] && ts[b] == ts[q];
      DistinctAt(ts, a, p);
      DistinctAt(ts, b, q);
    }
  }

  lemma {:induction false} ZeroDistinct(ls: Levels, u: iset<Bytes>)
    requires LevelsSound(ls, u)
    ensures DistinctIds(TablesAt(ls, 0))
  {
    if |ls| > 0 { assert FlatOk(0, ls[0], u); }
  }

  /** The job's tables of one key are asked in the order the merge prefers them. */
  lemma {:induction false} MembersOrder(c: Change, u: iset<Bytes>, m: nat, x: Entry, k: nat, y: Entry)
    requires ChangeOk(c, u) && InSources(JobTables(c), x, m) && InSources(JobTables(c), y, k) && UKey(x) == UKey(y)
    ensures AskedFirst(c.ls, LevelOf(c.job, m), Members(c.job)[m], LevelOf(c.job, k), Members(c.job)[k]) <==> m <= k
  {
    hide OutputOk, AllStored, AllKept, AllWritten, FromSources, Keys, LevelsSound, HoldsTables, HoldsOverlap, Newer;
    hide UKey, Contents;
    var j, n, zero := c.job, |c.job.source|, TablesAt(c.ls, 0);
    SoundKeys(c.ls, u);
    if m >= n && k >= n {
      StoredMembers(c, u);
      OverlapHasKeyOnce(j, c.store, u, x, y, m, k);
    } else if m < n && k < n && j.levelFrom == 0 {
      ZeroDistinct(c.ls, u);
      assert Members(j)[m] == j.source[m] == zero[n - 1 - m];
      assert Members(j)[k] == j.source[k] == zero[n - 1 - k];
      NewerAt(zero, n - 1 - m, n - 1 - k);
    }
  }

  lemma {:induction false} StoredMembers(c: Change, u: iset<Bytes>)
    requires ChangeOk(c, u)
    ensures Stored(Members(c.job), c.store, u)
  {
    hide OutputOk, AllKept, AllWritten, FromSources, LevelsSound, Describes, HoldsOverlap, SingleSource, NewestFirst;
    hide TablesAt;
  }

  /**
   A table that holds a key of the job but is not the job's is not in the destination level: it is
   asked before the job's tables exactly if it is above that level.
   */
  lemma {:induction false} OutsiderOrder(c: Change, u: iset<Bytes>, l: nat, t: TableEntry, x: Entry, m: nat, y: Entry)
    requires ChangeOk(c, u) && Holds(c.ls, c.store, l, t, x) && t !in Members(c.job)
    requires InSources(JobTables(c), y, m) && UKey(x) == UKey(y)
    ensures l != Dest(c)
    ensures AskedFirst(c.ls, l, t, LevelOf(c.job, m), Members(c.job)[m]) <==> l < Dest(c)
    ensures AskedFirst(c.ls, LevelOf(c.job, m), Members(c.job)[m], l, t) <==> l > Dest(c)
  {
    hide OutputOk, AllKept, AllWritten, FromSources, Keys, LevelsSound, HoldsTables, Newer, UKey, Contents, TablesAt;
    hide SingleSource, Less;
    var j, from := c.job, c.job.levelFrom;
    MemberHolds(c, u, m, y);
    if l == Dest(c) { OutsiderNotInDest(c, u, t, x, m, y); }
    if l == from && LevelOf(j, m) == from {
      if from > 0 {
        OneTable(c.ls, c.store, from, t, x, Members(j)[m], y, u);
      } else {
        OutsiderIsNewer(c, u, t, m);
      }
    }
  }

  lemma {:induction false} OutsiderNotInDest(c: Change, u: iset<Bytes>, t: TableEntry, x: Entry, m: nat, y: Entry)
    requires ChangeOk(c, u) && Holds(c.ls, c.store, Dest(c), t, x) && t !in Members(c.job)
    requires InSources(JobTables(c), y, m)
    ensures UKey(x) != UKey(y)
  {
    hide OutputOk, AllKept, AllWritten, FromSources, Keys, HoldsTables, UKey, Contents, TablesAt, SingleSource;
    hide Describes, Less;
    var a := Members(c.job)[m];
    MemberHolds(c, u, m, y);
    SoundKeys(c.ls, u);
    assert Clear(t, c.job) && a in Members(c.job);
    if UKey(x) == UKey(y) { OneTableHasKey(t, c.store[t.id], a, c.store[a.id], x, y, u); }
  }

  lemma {:induction false} OutsiderIsNewer(c: Change, u: iset<Bytes>, t: TableEntry, m: nat)
    requires ChangeOk(c, u) && c.job.levelFrom == 0 && m < |c.job.source| && t in TablesAt(c.ls, 0)
    requires t !in Members(c.job)
    ensures Newer(TablesAt(c.ls, 0), t, Members(c.job)[m]) && !Newer(TablesAt(c.ls, 0), Members(c.job)[m], t)
  {
    hide ChangeOk, Newer, TablesAt, DistinctIds;
    var n, zero := |c.job.source|, TablesAt(c.ls, 0);
    ZeroSource(c, u, m);
    var p :| 0 <= p < |zero| && zero[p] == t;
    if p < n { ZeroSource(c, u, n - 1 - p); }
    NewerAt(zero, p, n - 1 - m);
    NewerAt(zero, n - 1 - m, p);
  }

  /** The job's level 0 tables are the first of the level, the last of them first. */
  lemma {:induction false} ZeroSource(c: Change, u: iset<Bytes>, m: nat)
    requires ChangeOk(c, u) && c.job.levelFrom == 0 && m < |c.job.source|
    ensures var (n, zero) := (|c.job.source|, TablesAt(c.ls, 0));
            n <= |zero| && DistinctIds(zero) && Members(c.job)[m] == zero[n - 1 - m]
              && zero[n - 1 - m] in Members(c.job)
  {
    hide OutputOk, AllKept, AllWritten, FromSources, LevelsSound, HoldsTables, HoldsOverlap, TablesAt, AllStored, JobOk;
    hide DistinctIds;
    ZeroDistinct(c.ls, u);
    SoundKeys(c.ls, u);
    JobParts(c.job, c.ls, u);
    assert Members(c.job)[m] == c.job.source[m];
  }

  // ----- the levels afterwards

  /** Taking out one place keeps the order of the others. */
  lemma {:induction false} CutKeepsOrder(ts: Tables, i: nat, a: TableEntry, b: TableEntry)
    requires i < |ts| && a != ts[i] && b != ts[i]
    ensures Newer(ts[..i] + ts[i + 1..], a, b) <==> Newer(ts, a, b)
  {
    var r := ts[..i] + ts[i + 1..];
    if Newer(ts, a, b) {
      var p, q :| 0 <= q <= p < |ts| && ts[p] == a && ts[q] == b;
      assert r[if p < i then p else p - 1] == a && r[if q < i then q else q - 1] == b;
    }
    if Newer(r, a, b) {
      var p, q :| 0 <= q <= p < |r| && r[p] == a && r[q] == b;
      assert ts[if p < i then p else p + 1] == a && ts[if q < i then q else q + 1] == b;
    }
  }

  lemma {:induction false} RemoveKeepsOrder(ts: Tables, id: TableID, a: TableEntry, b: TableEntry)
    requires a.id != id && b.id != id
    ensures Newer(RemoveTable(ts, id), a, b) <==> Newer(ts, a, b)
  {
    hide Newer, RemoveTable;
    FirstOrNone(ts, id);
    if i :| 0 <= i < |ts| && ts[i].id == id && forall k | 0 <= k < i :: ts[k].id != id {
      RemoveAt(ts, i);
      CutKeepsOrder(ts, i, a, b);
    } else {
      RemoveAbsent(ts, id);
    }
  }

  lemma {:induction false} DeregisterKeepsOrder(ls: Levels, deregs: seq<LevelDeReg>, a: TableEntry, b: TableEntry)
    requires forall i | 0 <= i < |deregs| && deregs[i].level == 0 ::
               deregs[i].dereg.id != a.id && deregs[i].dereg.id != b.id
    ensures Newer(TablesAt(DeregisterAll(ls, deregs), 0), a, b) <==> Newer(TablesAt(ls, 0), a, b)
  {
    hide Newer, TablesAt, SetLevel;
    if deregs != [] {
      var n := |deregs| - 1;
      var ls', d := DeregisterAll(ls, deregs[..n]), deregs[n];
      DeregisterKeepsOrder(ls, deregs[..n], a, b);
      SetLevelAt(ls', d.level, RemoveTable(TablesAt(ls', d.level), d.dereg.id), 0);
      if d.level == 0 { RemoveKeepsOrder(TablesAt(ls', 0), d.dereg.id, a, b); }
    }
  }

  /** Level 0 tables that are not the job's keep their order. */
  lemma {:induction false} ZeroOrderKept(c: Change, u: iset<Bytes>, a: TableEntry, b: TableEntry)
    requires ChangeOk(c, u) && a in TablesAt(c.ls, 0) && b in TablesAt(c.ls, 0)
    requires a !in Members(c.job) && b !in Members(c.job)
    ensures Newer(TablesAt(After(c), 0), a, b) <==> Newer(TablesAt(c.ls, 0), a, b)
  {
    hide Newer, TablesAt, AllFlatOk, Keys, OutputOk, AllStored, AllKept, AllWritten, FromSources, RegisterAll;
    hide DeregisterAll;
    hide HoldsOverlap, SingleSource, Ascending, CompactionSpec.NewestFirst, JobDeregs;
    var ds := JobDeregs(c.job);
    forall i | 0 <= i < |ds| && ds[i].level == 0 ensures ds[i].dereg.id != a.id && ds[i].dereg.id != b.id {
      assert ds[i] in ds;
      DeregNames(c.job, ds[i], c.ls);
    }
    DeregisterKeepsOrder(c.ls, ds, a, b);
    RegistersElsewhere(DeregisterAll(c.ls, ds), JobRegs(c.job, c.outs), 0);
  }

  /** A table after the change is an untouched one or one that was written. */
  lemma {:induction false} HoldsAfter(c: Change, u: iset<Bytes>, l: nat, t: TableEntry, e: Entry)
    requires ChangeOk(c, u)
    ensures t !in c.outs || l != Dest(c) ==>
              (Holds(After(c), c.store', l, t, e) <==> Holds(c.ls, c.store, l, t, e) && t !in Members(c.job))
    ensures Holds(After(c), c.store', l, t, e) && t in c.outs && l == Dest(c) ==> e in Concat(c.written)
  {
    hide LevelsSound, JobOk, OutputOk, AllStored, FromSources, Describes, TablesAt, Applied;
    AppliedAt(c.ls, c.job, c.outs, t, l, u);
    if t in c.outs {
      var i :| 0 <= i < |c.outs| && c.outs[i] == t;
      ConcatMembers(c.written, e);
    }
  }

  /** What was written is in the destination level. */
  lemma {:induction false} WrittenHeld(c: Change, u: iset<Bytes>, e: Entry) returns (t: TableEntry)
    requires ChangeOk(c, u) && e in Concat(c.written)
    ensures t in c.outs && Holds(After(c), c.store', Dest(c), t, e)
  {
    hide LevelsSound, JobOk, OutputOk, AllStored, AllKept, FromSources, Describes, TablesAt, Applied;
    ConcatMembers(c.written, e);
    var i :| 0 <= i < |c.written| && e in c.written[i];
    t := c.outs[i];
    AppliedAt(c.ls, c.job, c.outs, t, Dest(c), u);
  }

  lemma {:induction false} WrittenCame(c: Change, u: iset<Bytes>, e: Entry) returns (m: nat)
    requires ChangeOk(c, u) && e in Concat(c.written)
    ensures InSources(JobTables(c), e, m)
  {
    hide LevelsSound, JobOk, OutputOk, AllStored, AllKept, AllWritten, Ver;
    m :| InSources(JobTables(c), e, m) && Ver(e) <= MAX_UINT64;
  }

  /** A table that was not the job's and is not one written. */
  ghost predicate Untouched(c: Change, l: nat, t: TableEntry) {
    t !in Members(c.job) && !(t in c.outs && l == Dest(c))
  }

  /** No untouched table of the destination level is among those written. */
  lemma {:induction false} OldIsUntouched(c: Change, u: iset<Bytes>, l: nat, t: TableEntry)
    requires ChangeOk(c, u) && t in TablesAt(c.ls, l) && t !in Members(c.job)
    ensures Untouched(c, l, t)
  {
    hide LevelsSound, JobOk, Ascending, DistinctIds, WellFormed, Within, AllStored, AllKept, AllWritten, FromSources;
    hide TablesAt;
    forall x | x in c.job.source ensures x in Members(c.job) {}
  }

  lemma {:induction false} OrderKept(c: Change, u: iset<Bytes>, l: nat, a: TableEntry, m: nat, b: TableEntry)
    requires ChangeOk(c, u) && a in TablesAt(c.ls, l) && b in TablesAt(c.ls, m)
    requires a !in Members(c.job) && b !in Members(c.job)
    ensures AskedFirst(After(c), l, a, m, b) <==> AskedFirst(c.ls, l, a, m, b)
  {
    hide ChangeOk, Newer, TablesAt, After;
    if l == 0 && m == 0 { ZeroOrderKept(c, u, a, b); }
  }

  // ----- reads before and after

  /** An untouched table is read afterwards if it was read before. */
  lemma {:induction false} UntouchedReadsOn(c: Change, u: iset<Bytes>, v: int, e: Entry, l: nat, t: TableEntry)
    requires ChangeOk(c, u) && ReadsAt(c.ls, c.store, v, e, l, t) && t !in Members(c.job)
    ensures ReadsAt(After(c), c.store', v, e, l, t)
  {
    hide ChangeOk, Holds, AskedFirst, Ver, UKey, After, JobTables, Untouched;
    HoldsParts(c, l, t, e);
    OldIsUntouched(c, u, l, t);
    StillHeld(c, u, l, t, e);
    forall m: nat, t', y | Holds(After(c), c.store', m, t', y) && UKey(y) == UKey(e) && Ver(y) <= v
      ensures Ver(y) < Ver(e) || (Ver(y) == Ver(e) && AskedFirst(After(c), l, t, m, t'))
    {
      HoldsAfter(c, u, m, t', y);
      if t' in c.outs && m == Dest(c) {
        var k := WrittenCame(c, u, y);
        MemberHolds(c, u, k, y);
        OutsiderOrder(c, u, l, t, e, k, y);
        AskedAbove(After(c), l, t, m, t');
        assert Ver(y) < Ver(e) || (Ver(y) == Ver(e) && AskedFirst(c.ls, l, t, LevelOf(c.job, k), Members(c.job)[k]));
      } else {
        HoldsParts(c, m, t', y);
        OrderKept(c, u, l, t, m, t');
      }
    }
  }

  lemma {:induction false} AskedAbove(ls: Levels, l: nat, a: TableEntry, m: nat, b: TableEntry)
    requires m > 0
    ensures AskedFirst(ls, l, a, m, b) <==> l <= m
    ensures AskedFirst(ls, m, b, l, a) <==> m <= l
  {
  }

  lemma {:induction false} HoldsParts(c: Change, l: nat, t: TableEntry, e: Entry)
    requires Holds(c.ls, c.store, l, t, e)
    ensures t in TablesAt(c.ls, l)
  {
  }

  lemma {:induction false} StillHeld(c: Change, u: iset<Bytes>, l: nat, t: TableEntry, e: Entry)
    requires ChangeOk(c, u) && Untouched(c, l, t) && Holds(c.ls, c.store, l, t, e)
    ensures Holds(After(c), c.store', l, t, e)
  {
    hide ChangeOk, Holds, After;
    HoldsAfter(c, u, l, t, e);
  }

  /** An entry read from one of the job's tables is read from what was written. */
  lemma {:induction false} MemberReadsOn(c: Change, u: iset<Bytes>, v: int, e: Entry, l: nat, t: TableEntry)
    requires ChangeOk(c, u) && Carried(c, v, e) && ReadsAt(c.ls, c.store, v, e, l, t) && t in Members(c.job)
    ensures Reads(After(c), c.store', v, e)
  {
    hide ChangeOk, Holds, AskedFirst, Ver, UKey, After, JobTables;
    var k := MemberFound(c, u, l, t, e);
    forall y, i | InSources(JobTables(c), y, i) && UKey(y) == UKey(e) && Ver(y) <= v
      ensures Ver(y) < Ver(e) || (Ver(y) == Ver(e) && k <= i)
    {
      MemberHolds(c, u, i, y);
      MembersOrder(c, u, k, e, i, y);
    }
    assert IsLatest(JobTables(c), v, e, k);
    assert IsLatest([Concat(c.written)], v, e, 0);
    var o := WrittenHeld(c, u, e);
    forall m: nat, t', y | Holds(After(c), c.store', m, t', y) && UKey(y) == UKey(e) && Ver(y) <= v
      ensures Ver(y) < Ver(e) || (Ver(y) == Ver(e) && AskedFirst(After(c), Dest(c), o, m, t'))
    {
      HoldsAfter(c, u, m, t', y);
      AskedAbove(After(c), m, t', Dest(c), o);
      if t' in c.outs && m == Dest(c) {
        assert InSources([Concat(c.written)], y, 0);
      } else {
        OutsiderOrder(c, u, m, t', y, k, e);
      }
    }
    assert ReadsAt(After(c), c.store', v, e, Dest(c), o);
  }

  /** An untouched table that is read afterwards was read before. */
  lemma {:induction false} UntouchedWasRead(c: Change, u: iset<Bytes>, v: UInt64, e: Entry, l: nat, t: TableEntry)
    requires ChangeOk(c, u) && ReadsAt(After(c), c.store', v, e, l, t) && !(t in c.outs && l == Dest(c))
    requires forall y, k | InSources(JobTables(c), y, k) && UKey(y) == UKey(e) && Ver(y) <= v ::
               Represented(c, v, y) || Ver(y) < Ver(e) || (Ver(y) == Ver(e) && l < Dest(c))
    ensures ReadsAt(c.ls, c.store, v, e, l, t)
  {
    hide ChangeOk, Holds, AskedFirst, Ver, UKey, After, JobTables, Untouched;
    HoldsAfter(c, u, l, t, e);
    HoldsParts(c, l, t, e);
    forall m: nat, t', y | Holds(c.ls, c.store, m, t', y) && UKey(y) == UKey(e) && Ver(y) <= v
      ensures Ver(y) < Ver(e) || (Ver(y) == Ver(e) && AskedFirst(c.ls, l, t, m, t'))
    {
      HoldsParts(c, m, t', y);
      if t' in Members(c.job) {
        var k := MemberFound(c, u, m, t', y);
        OutsiderOrder(c, u, l, t, e, k, y);
        if Represented(c, v, y) {
          var z :| z in Concat(c.written) && UKey(z) == UKey(y) && Ver(y) <= Ver(z) <= v;
          var o := WrittenHeld(c, u, z);
          AskedAbove(After(c), l, t, Dest(c), o);
        }
      } else {
        OldIsUntouched(c, u, m, t');
        StillHeld(c, u, m, t', y);
        OrderKept(c, u, l, t, m, t');
      }
    }
  }

  /** What the job's tables hold of a key is represented among what was written. */
  lemma {:induction false} LatestWritten(c: Change, u: iset<Bytes>, v: UInt64, y: Entry, k: nat) returns (z: Entry)
    requires ChangeOk(c, u) && SameKeyAt(c, v, UKey(y)) && InSources(JobTables(c), y, k) && Ver(y) <= v
    ensures z in Concat(c.written) && UKey(z) == UKey(y) && Ver(y) <= Ver(z) <= v
  {
    hide ChangeOk, Ver, UKey, JobTables, AllSeen;
    TablesSorted(c, u);
    var p := QueryBounds(v);
    AllSeenOk(JobTables(c), p);
    var i: nat;
    z, i := NewestOf(AllSeen(JobTables(c), p), y, k);
    LatestIsNewest(JobTables(c), v, z, i);
    assert IsLatest([Concat(c.written)], v, z, 0);
  }

  lemma {:induction false} TablesSorted(c: Change, u: iset<Bytes>)
    requires ChangeOk(c, u)
    ensures SortedSources(JobTables(c))
  {
    hide LevelsSound, JobOk, OutputOk, AllStored, AllKept, AllWritten, FromSources;
    StoredMembers(c, u);
    SoundKeys(c.ls, u);
    UnfoldKeys(u);
    forall i | 0 <= i < |JobTables(c)| ensures SortedRun(JobTables(c)[i]) {
      var t := Members(c.job)[i];
      assert t in Members(c.job);
      DescribedNonEmpty(t, c.store[t.id], u);
      ByteSortedIffSortedRun(c.store[t.id], u);
    }
  }

  /** An entry read from what was written was read from one of the job's tables. */
  lemma {:induction false} WrittenWasRead(c: Change, u: iset<Bytes>, v: int, e: Entry, t: TableEntry)
    requires ChangeOk(c, u) && ReadsAt(After(c), c.store', v, e, Dest(c), t) && t in c.outs
    requires IsLatest([Concat(c.written)], v, e, 0) ==> exists i: nat :: IsLatest(JobTables(c), v, e, i)
    ensures Reads(c.ls, c.store, v, e)
  {
    hide ChangeOk, Holds, AskedFirst, Ver, UKey, After, JobTables;
    HoldsAfter(c, u, Dest(c), t, e);
    forall y, i | InSources([Concat(c.written)], y, i) && UKey(y) == UKey(e) && Ver(y) <= v
      ensures Ver(y) < Ver(e) || (Ver(y) == Ver(e) && 0 <= i)
    {
      var o := WrittenHeld(c, u, y);
    }
    assert IsLatest([Concat(c.written)], v, e, 0);
    var k: nat :| IsLatest(JobTables(c), v, e, k);
    MemberHolds(c, u, k, e);
    var l, a := LevelOf(c.job, k), Members(c.job)[k];
    forall m: nat, t', y | Holds(c.ls, c.store, m, t', y) && UKey(y) == UKey(e) && Ver(y) <= v
      ensures Ver(y) < Ver(e) || (Ver(y) == Ver(e) && AskedFirst(c.ls, l, a, m, t'))
    {
      if t' in Members(c.job) {
        var i := MemberFound(c, u, m, t', y);
        MembersOrder(c, u, k, e, i, y);
      } else {
        HoldsParts(c, m, t', y);
        OldIsUntouched(c, u, m, t');
        StillHeld(c, u, m, t', y);
        OutsiderOrder(c, u, m, t', y, k, e);
        AskedAbove(After(c), m, t', Dest(c), t);
      }
    }
    assert ReadsAt(c.ls, c.store, v, e, l, a);
  }

  /** Applying a finished job changes no read of a key, at a version, where what it wrote reads as what it took. */
  lemma {:induction false} KeyReadsUnchanged(c: Change, u: iset<Bytes>, v: UInt64, e: Entry)
    requires ChangeOk(c, u) && SameKeyAt(c, v, UKey(e))
    ensures Reads(c.ls, c.store, v, e) <==> Reads(After(c), c.store', v, e)
  {
    hide ChangeOk, ReadsAt, After, JobTables, IsLatest, UKey, Ver;
    if Reads(c.ls, c.store, v, e) {
      var l: nat, t :| ReadsAt(c.ls, c.store, v, e, l, t);
      if t in Members(c.job) { MemberReadsOn(c, u, v, e, l, t); } else { UntouchedReadsOn(c, u, v, e, l, t); }
    }
    if Reads(After(c), c.store', v, e) {
      var l: nat, t :| ReadsAt(After(c), c.store', v, e, l, t);
      if t in c.outs && l == Dest(c) {
        WrittenWasRead(c, u, v, e, t);
      } else {
        forall y, k | InSources(JobTables(c), y, k) && UKey(y) == UKey(e) && Ver(y) <= v ensures Represented(c, v, y) {
          var z := LatestWritten(c, u, v, y, k);
        }
        UntouchedWasRead(c, u, v, e, l, t);
      }
    }
  }

  /** Applying a finished job changes no read at a version where what it wrote reads as what it took. */
  lemma {:induction false} ReadsUnchanged(c: Change, u: iset<Bytes>, v: UInt64, e: Entry)
    requires ChangeOk(c, u) && SameAt(c, v)
    ensures Reads(c.ls, c.store, v, e) <==> Reads(After(c), c.store', v, e)
  {
    hide ChangeOk, Reads, After, JobTables, IsLatest;
    KeyReadsUnchanged(c, u, v, e);
  }

  /** The index describes the stored tables afterwards too. */
  lemma {:induction false} StoredAfter(c: Change, u: iset<Bytes>)
    requires ChangeOk(c, u)
    ensures AllStored(After(c), c.store', u)
  {
    hide LevelsSound, JobOk, OutputOk, FromSources, Describes, TablesAt, Applied;
    forall l: nat, t | t in TablesAt(After(c), l) ensures t.id in c.store' && Describes(t, c.store'[t.id], u) {
      AppliedAt(c.ls, c.job, c.outs, t, l, u);
    }
  }

  // ----- a job from beginning to end

  /** The object store with the written tables added. */
  function Push(store: Store, outs: Tables, written: seq<seq<Entry>>): (r: Store)
    requires |outs| == |written|
  {
    if outs == [] then store
    else Push(store, outs[..|outs| - 1], written[..|outs| - 1])[outs[|outs| - 1].id := written[|outs| - 1]]
  }

  lemma {:induction false} Pushed(store: Store, outs: Tables, written: seq<seq<Entry>>, id: TableID)
    requires |outs| == |written| && DistinctIds(outs)
    ensures forall i | 0 <= i < |outs| ::
              outs[i].id in Push(store, outs, written) && Push(store, outs, written)[outs[i].id] == written[i]
    ensures (forall i | 0 <= i < |outs| :: outs[i].id != id) ==>
              (id in Push(store, outs, written) <==> id in store)
              && (id in store ==> Push(store, outs, written)[id] == store[id])
  {
    if outs != [] { Pushed(store, outs[..|outs| - 1], written[..|outs| - 1], id); }
  }

  /**
   The worker carries out a job, its tables are added to the object store and the index is changed.
   No read at or above the last flushed version sees a difference, if tombstones are kept.
   */
  method Compact(j: Job, store: Store, mint: nat -> TableID, sizeOf: seq<Entry> -> nat, maxTableSize: nat,
                 lastFlushedVersion: int, ghost ls: Levels, ghost u: iset<Bytes>)
    returns (outs: Tables, store': Store)
    requires -1 <= lastFlushedVersion < TWO63 && maxTableSize > 21
    requires LevelsSound(ls, u) && JobOk(j, ls, u) && AllStored(ls, store, u) && Mints(mint, ls)
    ensures OutputOk(j, outs, ls, u)
    ensures j.preserveTombstones ==> AllStored(Applied(ls, j, outs), store', u)
    ensures j.preserveTombstones ==>
              forall v: UInt64, e | MinNonCompactable(lastFlushedVersion) <= v ::
                Reads(ls, store, v, e) <==> Reads(Applied(ls, j, outs), store', v, e)
  {
    hide LevelsSound, JobOk, OutputOk, Mints, Describes, SameSnapshots, FromSources, Reads, TablesAt, AllStored;
    hide FreshId, Applied;
    JobStored(j, store, ls, u);
    var written: seq<seq<Entry>>;
    outs, written := ProcessJob(j, store, mint, sizeOf, maxTableSize, lastFlushedVersion, ls, u);
    store' := if j.isMove then store else Push(store, outs, written);
    ghost var bound := MinNonCompactable(lastFlushedVersion);
    if j.preserveTombstones {
      ghost var c := Change(ls, j, outs, if j.isMove then [store[j.source[0].id]] else written, store, store');
      if j.isMove { MoveIsChange(c, u, bound); } else { MergeIsChange(c, u); }
      StoredAfter(c, u);
      forall v: UInt64, e | bound <= v ensures Reads(ls, store, v, e) <==> Reads(Applied(ls, j, outs), store', v, e) {
        SnapshotAt(c, bound, v);
        ReadsUnchanged(c, u, v, e);
      }
    }
  }

  lemma {:induction false} JobStored(j: Job, store: Store, ls: Levels, u: iset<Bytes>)
    requires LevelsSound(ls, u) && JobOk(j, ls, u) && AllStored(ls, store, u)
    ensures Stored(Members(j), store, u) && (j.isMove ==> |j.source| == 1)
    ensures forall t | t in j.source :: t.id in store
  {
    hide LevelsSound, Describes, HoldsOverlap, CompactionSpec.NewestFirst, TablesAt;
  }

  /** A moved table reads as itself. */
  lemma {:induction false} MoveIsChange(c: Change, u: iset<Bytes>, bound: int)
    requires LevelsSound(c.ls, u) && JobOk(c.job, c.ls, u) && OutputOk(c.job, c.outs, c.ls, u)
    requires AllStored(c.ls, c.store, u)
    requires c.job.isMove && |c.job.source| == 1 && c.outs == c.job.source && c.store' == c.store
    requires c.job.source[0].id in c.store && c.written == [c.store[c.job.source[0].id]]
    ensures ChangeOk(c, u) && HasTables(c) && SameSnapshots(JobTables(c), Concat(c.written), bound)
  {
    hide LevelsSound, Describes, HoldsOverlap, CompactionSpec.NewestFirst, OutputOk, IsLatest, TablesAt, Ver;
    hide SingleSource;
    var t := c.job.source[0];
    var es := c.store[t.id];
    assert Members(c.job) == [t];
    assert t in TablesAt(c.ls, c.job.levelFrom);
    assert Concat(c.written) == es by { assert c.written[1..] == []; }
    assert JobTables(c) == [es];
    assert forall x | x in es :: InSources([es], x, 0) && Ver(x) <= MAX_UINT64;
    forall v, x ensures (exists i: nat :: IsLatest([es], v, x, i)) <==> IsLatest([es], v, x, 0) {
      OneSourceLatest(es, v, x);
    }
  }

  lemma {:induction false} OneSourceLatest(es: seq<Entry>, v: int, x: Entry)
    ensures (exists i: nat :: IsLatest([es], v, x, i)) <==> IsLatest([es], v, x, 0)
  {
    hide Ver, UKey;
  }

  lemma {:induction false} MergeIsChange(c: Change, u: iset<Bytes>)
    requires LevelsSound(c.ls, u) && JobOk(c.job, c.ls, u) && OutputOk(c.job, c.outs, c.ls, u)
    requires AllStored(c.ls, c.store, u)
    requires |c.outs| == |c.written| && c.store' == Push(c.store, c.outs, c.written)
    requires forall i | 0 <= i < |c.outs| :: Describes(c.outs[i], c.written[i], u)
    requires forall t | t in c.outs :: FreshId(t.id, c.ls)
    requires HasTables(c) && FromSources(JobTables(c), Concat(c.written), MAX_UINT64)
    ensures ChangeOk(c, u)
  {
    hide LevelsSound, JobOk, Describes, FromSources, TablesAt, Push, Ascending, Within, WellFormed;
    Pushed(c.store, c.outs, c.written, "");
    forall l: nat, t | t in TablesAt(c.ls, l)
      ensures t.id in c.store && t.id in c.store' && c.store'[t.id] == c.store[t.id]
    {
      forall i | 0 <= i < |c.outs| ensures c.outs[i].id != t.id { assert c.outs[i] in c.outs; }
      Pushed(c.store, c.outs, c.written, t.id);
    }
  }

  lemma {:induction false} SnapshotAt(c: Change, bound: int, v: int)
    requires HasTables(c) && SameSnapshots(JobTables(c), Concat(c.written), bound) && bound <= v <= MAX_UINT64
    ensures SameAt(c, v)
  {
  }

  // ----- reads are queries

  /** What GetTableIDsForRange gives a query: level 0 tables one by one, newest first, then a chain for each level. */
  ghost function ReadSources(ls: Levels, store: Store): Sources
    requires AllIn(ls, store)
  {
    ReverseMembers(TablesAt(ls, 0));
    Contents(Reverse(TablesAt(ls, 0)), store)
    + seq(if ls == [] then 0 else |ls| - 1, i requires 0 <= i < |ls| - 1 => LevelChain(ls, store, i + 1))
  }

  ghost predicate AllIn(ls: Levels, store: Store) { forall l: nat, t | t in TablesAt(ls, l) :: t.id in store }

  ghost function LevelChain(ls: Levels, store: Store, l: nat): seq<Entry>
    requires AllIn(ls, store)
  {
    assert forall t | t in TablesAt(ls, l) :: t.id in store;
    ChainView(Contents(TablesAt(ls, l), store))
  }

  /** Source i is where table t of level l is. */
  ghost predicate Place(ls: Levels, l: nat, t: TableEntry, i: nat) {
    var zero := TablesAt(ls, 0);
    if l == 0 then i < |zero| && zero[|zero| - 1 - i] == t else i == |zero| + l - 1
  }

  lemma {:induction false} SourceAt(ls: Levels, store: Store, i: nat)
    requires AllIn(ls, store)
    ensures var (zero, s) := (TablesAt(ls, 0), ReadSources(ls, store));
            && (i < |zero| ==> i < |s| && zero[|zero| - 1 - i].id in store && s[i] == store[zero[|zero| - 1 - i].id])
            && (i >= |zero| && i < |s| ==> s[i] == LevelChain(ls, store, i - |zero| + 1))
            && (i >= |s| ==> TablesAt(ls, i - |zero| + 1) == [])
            && |zero| <= |s|
  {
    var zero := TablesAt(ls, 0);
    ReverseAt(zero);
    ReverseMembers(zero);
    if i < |zero| { assert zero[|zero| - 1 - i] in zero; }
  }

  /** The tables of a level above 0 are chained whole. */
  lemma {:induction false} ChainHolds(ls: Levels, store: Store, l: nat, e: Entry, u: iset<Bytes>)
    requires LevelsSound(ls, u) && AllStored(ls, store, u) && AllIn(ls, store) && l > 0
    ensures e in LevelChain(ls, store, l) <==> exists t :: Holds(ls, store, l, t, e)
  {
    hide Describes, UniqueIds, Keys, TablesAt, AllFlatOk;
    var ts := TablesAt(ls, l);
    assert Stored(ts, store, u);
    AscendingAt(ls, l, u);
    ChainOfTables(ts, store, u);
    ConcatMembers(Contents(ts, store), e);
    if t :| Holds(ls, store, l, t, e) {
      var k :| 0 <= k < |ts| && ts[k] == t;
      assert e in Contents(ts, store)[k];
    }
    if k :| 0 <= k < |ts| && e in Contents(ts, store)[k] { assert Holds(ls, store, l, ts[k], e); }
  }

  lemma {:induction false} HeldInSource(ls: Levels, store: Store, l: nat, t: TableEntry, e: Entry,
                                        u: iset<Bytes>) returns (i: nat)
    requires LevelsSound(ls, u) && AllStored(ls, store, u) && AllIn(ls, store) && Holds(ls, store, l, t, e)
    ensures InSources(ReadSources(ls, store), e, i) && Place(ls, l, t, i)
  {
    hide LevelsSound, AllStored, LevelChain, ReadSources;
    var zero := TablesAt(ls, 0);
    if l == 0 {
      var p :| 0 <= p < |zero| && zero[p] == t;
      i := |zero| - 1 - p;
    } else {
      i := |zero| + l - 1;
      ChainHolds(ls, store, l, e, u);
    }
    SourceAt(ls, store, i);
  }

  lemma {:induction false} SourceHolds(ls: Levels, store: Store, i: nat, e: Entry, u: iset<Bytes>) returns (l: nat,
                                       t: TableEntry)
    requires LevelsSound(ls, u) && AllStored(ls, store, u) && AllIn(ls, store)
    requires InSources(ReadSources(ls, store), e, i)
    ensures Holds(ls, store, l, t, e) && Place(ls, l, t, i)
  {
    hide LevelsSound, AllStored, LevelChain, ReadSources;
    var zero := TablesAt(ls, 0);
    SourceAt(ls, store, i);
    if i < |zero| {
      l, t := 0, zero[|zero| - 1 - i];
    } else {
      l := i - |zero| + 1;
      ChainHolds(ls, store, l, e, u);
      t :| Holds(ls, store, l, t, e);
    }
  }

  /** Tables are asked in the order of the sources. */
  lemma {:induction false} PlaceOrder(ls: Levels, u: iset<Bytes>, l: nat, a: TableEntry, i: nat, m: nat, b: TableEntry,
                                      k: nat)
    requires LevelsSound(ls, u) && Place(ls, l, a, i) && Place(ls, m, b, k)
    ensures AskedFirst(ls, l, a, m, b) <==> i <= k
  {
    hide LevelsSound, Newer;
    var zero := TablesAt(ls, 0);
    if l == 0 && m == 0 {
      ZeroDistinct(ls, u);
      NewerAt(zero, |zero| - 1 - i, |zero| - 1 - k);
    }
  }

  /** A read finds what a query over these sources yields for the key. */
  lemma {:induction false} ReadIsLatest(ls: Levels, store: Store, v: int, e: Entry, u: iset<Bytes>)
    requires LevelsSound(ls, u) && AllStored(ls, store, u) && AllIn(ls, store)
    ensures Reads(ls, store, v, e) <==> exists i: nat :: IsLatest(ReadSources(ls, store), v, e, i)
  {
    hide LevelsSound, AllStored, ReadSources, Holds, Place, AskedFirst, Ver, UKey;
    var s := ReadSources(ls, store);
    if Reads(ls, store, v, e) {
      var l: nat, t :| ReadsAt(ls, store, v, e, l, t);
      var i := HeldInSource(ls, store, l, t, e, u);
      forall y, k | InSources(s, y, k) && UKey(y) == UKey(e) && Ver(y) <= v
        ensures Ver(y) < Ver(e) || (Ver(y) == Ver(e) && i <= k)
      {
        var m, t' := SourceHolds(ls, store, k, y, u);
        PlaceOrder(ls, u, l, t, i, m, t', k);
      }
      assert IsLatest(s, v, e, i);
    }
    if i: nat :| IsLatest(s, v, e, i) {
      var l, t := SourceHolds(ls, store, i, e, u);
      forall m: nat, t', y | Holds(ls, store, m, t', y) && UKey(y) == UKey(e) && Ver(y) <= v
        ensures Ver(y) < Ver(e) || (Ver(y) == Ver(e) && AskedFirst(ls, l, t, m, t'))
      {
        var k := HeldInSource(ls, store, m, t', y, u);
        PlaceOrder(ls, u, l, t, i, m, t', k);
      }
      assert ReadsAt(ls, store, v, e, l, t);
    }
  }
}
