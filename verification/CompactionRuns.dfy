/**
 Reads over whole runs of the level manager. The tables are in an object store that is never overwritten;
 workers carry out jobs at any time between the dispatch of a job and its completion, while other jobs are
 applied. Whatever the interleaving, applying jobs that keep tombstones changes no read at or above the
 bounds of their merges: only a new table of level 0, or a job that drops tombstones, can.
 */
module CompactionRuns {
  import opened Bytes
  import opened KeyEncoding
  import opened MergeSpec
  import opened CompactionMerge
  import opened LevelSpec
  import opened MasterRecord
  import opened CompactionSpec
  import opened CompactionWorker
  import opened CompactionReads
  import opened CompactionDrops
  import opened LiveReads
  import Q = CompactionQueue

  // ----- what a worker leaves in the store

  ghost predicate InStore(ts: Tables, store: Store) { forall t | t in ts :: t.id in store }

  /** The tables written for j are stored and hold entries of its tables, merged. */
  ghost predicate WorkerDid(j: Job, outs: Tables, store: Store, bound: int, u: iset<Bytes>) {
    && InStore(Members(j), store) && InStore(outs, store)
    && (forall t | t in outs :: Describes(t, store[t.id], u))
    && FromSources(Contents(Members(j), store), Concat(Contents(outs, store)), MAX_UINT64)
    && Merged(j, Contents(Members(j), store), Concat(Contents(outs, store)), bound)
  }

  /**
   At or above the bound, what is written reads as the job's tables did. A job that drops tombstones at
   least keeps the values; unless it reads the same, it has no tombstones and its deletes are done. A
   merge of such a job, and a move of a table without any, leaves no tombstones.
   */
  ghost predicate Merged(j: Job, s: Sources, out: seq<Entry>, bound: int) {
    && LiveKept(s, out, bound)
    && (SameSnapshots(s, out, bound)
        || (!j.preserveTombstones && NoTombstones(out) && DeletesDone(s, out, bound)))
    && (!j.preserveTombstones && CleanMove(j) ==> NoTombstones(out))
  }

  /** later is store with what was written added, and whatever others add. */
  ghost predicate Extends(store: Store, j: Job, outs: Tables, written: seq<seq<Entry>>, later: Store) {
    && (forall id | id in store :: id in later && later[id] == store[id])
    && (!j.isMove ==>
          |outs| == |written| && forall i | 0 <= i < |outs| :: outs[i].id in later && later[outs[i].id] == written[i])
  }

  lemma {:induction false} SameContents(ts: Tables, store: Store, later: Store)
    requires InStore(ts, store) && forall id | id in store :: id in later && later[id] == store[id]
    ensures InStore(ts, later) && Contents(ts, later) == Contents(ts, store)
  {
  }

  // ----- runs with a store

  /** What writers and workers put into the store before they report it; bound is that of a worker's merge. */
  ghost predicate StoredEvent(s: Q.State, e: Q.Event, bound: int, store: Store, u: iset<Bytes>) {
    && (e.Registered? ==> e.table.id in store && Describes(e.table, store[e.table.id], u))
    && (e.Finished? && e.id in s.inProgress ==> WorkerDid(s.inProgress[e.id].job, e.outs, store, bound, u))
  }

  /** A run over a store, with the bound of the merge behind each event. */
  ghost predicate IsStoredRun(states: seq<Q.State>, events: seq<Q.Event>, bounds: seq<int>, store: Store, maxL0: int,
                              u: iset<Bytes>) {
    && Keys(u) && maxL0 >= 0 && Q.IsRun(states, events, maxL0, u) && |bounds| == |events|
    && forall i | 0 <= i < |events| :: StoredEvent(states[i], events[i], bounds[i], store, u)
  }

  /** All tables there are, and those on their way, are stored. */
  ghost predicate StateStored(s: Q.State, store: Store, u: iset<Bytes>) {
    && AllStored(s.ls, store, u)
    && forall t | t in s.inflight + s.pendingAdds :: t.id in store && Describes(t, store[t.id], u)
  }

  /** The change that a finished job makes, in a store that has all of it already. */
  ghost function ChangeBy(ls: Levels, j: Job, outs: Tables, store: Store): Change
    requires InStore(outs, store)
  {
    Change(ls, j, outs, Contents(outs, store), store, store)
  }

  lemma {:induction false} WorkIsChange(ls: Levels, j: Job, outs: Tables, store: Store, bound: int, u: iset<Bytes>)
    requires LevelsSound(ls, u) && JobOk(j, ls, u) && OutputOk(j, outs, ls, u) && AllStored(ls, store, u)
    requires WorkerDid(j, outs, store, bound, u)
    ensures ChangeOk(ChangeBy(ls, j, outs, store), u)
    ensures MergedBy(ChangeBy(ls, j, outs, store), bound)
  {
    hide LevelsSound, JobOk, OutputOk, Describes, FromSources, Merged, TablesAt;
    assert JobTables(ChangeBy(ls, j, outs, store)) == Contents(Members(j), store);
  }

  ghost predicate MergedBy(c: Change, bound: int) {
    HasTables(c) && Merged(c.job, JobTables(c), Concat(c.written), bound)
  }

  // ----- the tables stay stored

  lemma {:induction false} SameTablesStored(ls: Levels, ls': Levels, store: Store, u: iset<Bytes>)
    requires AllStored(ls, store, u) && forall l: nat :: TablesAt(ls', l) == TablesAt(ls, l)
    ensures AllStored(ls', store, u)
  {
    hide TablesAt, Describes;
  }

  lemma {:induction false} SameTablesRead(ls: Levels, ls': Levels, store: Store, v: int, e: Entry)
    requires forall l: nat :: TablesAt(ls', l) == TablesAt(ls, l)
    ensures Reads(ls, store, v, e) <==> Reads(ls', store, v, e)
  {
    hide TablesAt, UKey, Ver;
    forall l: nat, t ensures ReadsAt(ls, store, v, e, l, t) <==> ReadsAt(ls', store, v, e, l, t) {
      SameReadsAt(ls, ls', store, v, e, l, t);
    }
  }

  lemma {:induction false} SameReadsAt(ls: Levels, ls': Levels, store: Store, v: int, e: Entry, l: nat, t: TableEntry)
    requires forall l: nat :: TablesAt(ls', l) == TablesAt(ls, l)
    ensures ReadsAt(ls, store, v, e, l, t) <==> ReadsAt(ls', store, v, e, l, t)
  {
    hide TablesAt, UKey, Ver, Newer;
    forall m: nat, t', y ensures Holds(ls, store, m, t', y) <==> Holds(ls', store, m, t', y) {}
    forall m: nat, t' ensures AskedFirst(ls, l, t, m, t') <==> AskedFirst(ls', l, t, m, t') {}
  }

  // ----- the tables stay stored, step by step

  /** Tables on their way are those that were and the one just registered. */
  lemma {:induction false} StepAdds(s: Q.State, e: Q.Event, maxL0: int, u: iset<Bytes>, t: TableEntry)
    requires Q.EventOk(s, e, u) && t in Adds(Q.Step(s, e, maxL0, u))
    ensures t in Adds(s) || (e.Registered? && t == e.table)
  {
    hide TablesAt, Q.EventOk, Q.ScheduleUpper, Q.ScheduleZero, Q.Cancel, Applied, RegisterIn;
    if e.ScheduledUpper? { UpperTables(s, e, u); }
    else if e.ScheduledZero? { ZeroTables(s, e, u); }
    else if e.Cancelled? { CancelTables(s, e.id); }
  }

  lemma {:induction false} ArrivedStored(s: Q.State, i: nat, store: Store, u: iset<Bytes>)
    requires StateStored(s, store, u)
    ensures AllStored(Q.ApplyL0(s, i).ls, store, u)
  {
    hide Describes, TablesAt, SetLevel;
    if i < |s.inflight| {
      var t, ls := s.inflight[i], s.ls;
      assert t in s.inflight + s.pendingAdds;
      var ts := AddTo(0, TablesAt(ls, 0), t);
      forall l: nat, x | x in TablesAt(SetLevel(ls, 0, ts), l) ensures x.id in store && Describes(x, store[x.id], u) {
        SetLevelAt(ls, 0, ts, l);
        if l == 0 && x !in TablesAt(ls, 0) { assert x == t; }
      }
    }
  }

  lemma {:induction false} AppliedStored(s: Q.State, e: Q.Event, bound: int, store: Store, maxL0: int, u: iset<Bytes>)
    requires Q.Inv(s, maxL0, u) && Q.EventOk(s, e, u) && AppliesJob(s, e)
    requires StateStored(s, store, u) && StoredEvent(s, e, bound, store, u)
    ensures var c := ChangeBy(s.ls, s.inProgress[e.id].job, e.outs, store);
            && ChangeOk(c, u) && Q.Step(s, e, maxL0, u).ls == After(c) && AllStored(After(c), store, u)
            && MergedBy(c, bound)
  {
    hide Q.Books, Q.L0Ok, Q.AddsOk, LevelsSound, JobOk, OutputOk, Describes, ChangeOk, MergedBy, AllStored, Applied;
    hide FromSources, Merged;
    var j := s.inProgress[e.id].job;
    assert j in Q.Outstanding(s);
    CoreParts(s.ls, Q.Outstanding(s), s.locked, u);
    assert Q.FinishOk(s, e.id, e.outs, u);
    WorkIsChange(s.ls, j, e.outs, store, bound, u);
    StoredAfter(ChangeBy(s.ls, j, e.outs, store), u);
  }

  lemma {:induction false} StepStored(s: Q.State, e: Q.Event, bound: int, store: Store, maxL0: int, u: iset<Bytes>)
    requires Q.Inv(s, maxL0, u) && Q.EventOk(s, e, u) && StateStored(s, store, u) && StoredEvent(s, e, bound, store, u)
    ensures StateStored(Q.Step(s, e, maxL0, u), store, u)
  {
    var s' := Q.Step(s, e, maxL0, u);
    hide Q.Inv, Q.EventOk, AllStored, Describes, Q.Step, ChangeOk;
    forall t | t in Adds(s') ensures t.id in store && Describes(t, store[t.id], u) {
      StepAdds(s, e, maxL0, u, t);
      assert t in Adds(s) ==> t in s.inflight + s.pendingAdds;
    }
    if e.Replicated? {
      ArrivedStored(s, e.index, store, u);
      StepArrives(s, e, maxL0, u);
    } else if AppliesJob(s, e) {
      AppliedStored(s, e, bound, store, maxL0, u);
    } else {
      StepTables(s, e, maxL0, u);
      SameTablesStored(s.ls, s'.ls, store, u);
    }
  }

  lemma {:induction false} StepArrives(s: Q.State, e: Q.Event, maxL0: int, u: iset<Bytes>)
    requires Q.EventOk(s, e, u) && e.Replicated?
    ensures Q.Step(s, e, maxL0, u) == Q.ApplyL0(s, e.index)
  {
  }

  // ----- reads over runs

  /** No table arrives, and a job that is applied keeps tombstones and merged with a bound up to v. */
  ghost predicate Quiet(s: Q.State, e: Q.Event, bound: int, v: int) {
    !e.Replicated? && (AppliesJob(s, e) ==> s.inProgress[e.id].job.preserveTombstones && bound <= v)
  }

  lemma {:induction false} StepReads(s: Q.State, e: Q.Event, bound: int, store: Store, maxL0: int, u: iset<Bytes>,
                                     v: UInt64, x: Entry)
    requires Q.Inv(s, maxL0, u) && Q.EventOk(s, e, u) && StateStored(s, store, u) && StoredEvent(s, e, bound, store, u)
    requires Quiet(s, e, bound, v)
    ensures Reads(s.ls, store, v, x) <==> Reads(Q.Step(s, e, maxL0, u).ls, store, v, x)
  {
    hide Q.Inv, Q.EventOk, Q.Step, Reads, ChangeOk, After, SameAt, StateStored, StoredEvent, LiveKept, SameSnapshots;
    if AppliesJob(s, e) {
      StoredOuts(s, e, bound, store, u);
      AppliedStored(s, e, bound, store, maxL0, u);
      var c := ChangeBy(s.ls, s.inProgress[e.id].job, e.outs, store);
      SnapshotAt(c, bound, v);
      ReadsUnchanged(c, u, v, x);
    } else {
      StepTables(s, e, maxL0, u);
      SameTablesRead(s.ls, Q.Step(s, e, maxL0, u).ls, store, v, x);
    }
  }

  lemma {:induction false} StoredOuts(s: Q.State, e: Q.Event, bound: int, store: Store, u: iset<Bytes>)
    requires AppliesJob(s, e) && StoredEvent(s, e, bound, store, u)
    ensures InStore(e.outs, store)
  {
  }

  lemma {:induction false} RunStored(states: seq<Q.State>, events: seq<Q.Event>, bounds: seq<int>, store: Store,
                                     maxL0: int, u: iset<Bytes>, k: nat)
    requires IsStoredRun(states, events, bounds, store, maxL0, u) && k < |states|
    ensures StateStored(states[k], store, u)
  {
    hide Q.Inv, Q.EventOk, Q.Step, StateStored, StoredEvent;
    if k == 0 {
      NothingToStore(store, u);
    } else {
      RunStored(states, events, bounds, store, maxL0, u, k - 1);
      Q.RunKeepsInv(states, events, maxL0, u, k - 1);
      StepStored(states[k - 1], events[k - 1], bounds[k - 1], store, maxL0, u);
    }
  }

  lemma {:induction false} NothingToStore(store: Store, u: iset<Bytes>)
    ensures StateStored(Q.Start(), store, u)
  {
  }

  /**
   In every run, between two states with no table arriving and only jobs applied that keep tombstones and
   merged with bounds up to v, no read at v changes, whenever the workers ran.
   */
  lemma {:induction false} ReadsStay(states: seq<Q.State>, events: seq<Q.Event>, bounds: seq<int>, store: Store,
                                     maxL0: int, u: iset<Bytes>, i: nat, k: nat, v: UInt64, x: Entry)
    requires IsStoredRun(states, events, bounds, store, maxL0, u) && i <= k < |states|
    requires forall m | i <= m < k :: Quiet(states[m], events[m], bounds[m], v)
    ensures Reads(states[i].ls, store, v, x) <==> Reads(states[k].ls, store, v, x)
  {
    hide Q.Inv, Q.EventOk, Q.Step, StateStored, StoredEvent, Quiet, Reads;
    if i < k {
      ReadsStay(states, events, bounds, store, maxL0, u, i, k - 1, v, x);
      Q.RunKeepsInv(states, events, maxL0, u, k - 1);
      RunStored(states, events, bounds, store, maxL0, u, k - 1);
      StepReads(states[k - 1], events[k - 1], bounds[k - 1], store, maxL0, u, v, x);
    }
  }

  // ----- what reads show, with jobs that drop tombstones

  /** No table arrives, and a job that is applied merged with a bound up to v. */
  ghost predicate Still(s: Q.State, e: Q.Event, bound: int, v: int) {
    !e.Replicated? && (AppliesJob(s, e) ==> bound <= v)
  }

  lemma {:induction false} StepKeepsLive(s: Q.State, e: Q.Event, bound: int, store: Store, maxL0: int, u: iset<Bytes>,
                                         v: UInt64, x: Entry)
    requires Q.Inv(s, maxL0, u) && Q.EventOk(s, e, u) && StateStored(s, store, u) && StoredEvent(s, e, bound, store, u)
    requires Still(s, e, bound, v) && Shows(s.ls, store, v, x)
    ensures Shows(Q.Step(s, e, maxL0, u).ls, store, v, x)
  {
    hide Q.Inv, Q.EventOk, Q.Step, Reads, ChangeOk, After, LiveAt, StateStored, StoredEvent, LiveKept, SameSnapshots;
    if AppliesJob(s, e) {
      StoredOuts(s, e, bound, store, u);
      AppliedStored(s, e, bound, store, maxL0, u);
      var c := ChangeBy(s.ls, s.inProgress[e.id].job, e.outs, store);
      LiveFrom(c, v, bound);
      LiveStays(c, u, v, x);
    } else {
      StepTables(s, e, maxL0, u);
      SameTablesRead(s.ls, Q.Step(s, e, maxL0, u).ls, store, v, x);
    }
  }

  /**
   In every run, between two states with no table arriving and only jobs applied that merged with bounds up
   to v, a value that is shown at v is still shown, whichever jobs drop tombstones.
   */
  lemma {:induction false} LiveStay(states: seq<Q.State>, events: seq<Q.Event>, bounds: seq<int>, store: Store,
                                    maxL0: int, u: iset<Bytes>, i: nat, k: nat, v: UInt64, x: Entry)
    requires IsStoredRun(states, events, bounds, store, maxL0, u) && i <= k < |states|
    requires forall m | i <= m < k :: Still(states[m], events[m], bounds[m], v)
    requires Shows(states[i].ls, store, v, x)
    ensures Shows(states[k].ls, store, v, x)
  {
    hide Q.Inv, Q.EventOk, Q.Step, StateStored, StoredEvent, Still, Shows;
    if i < k {
      LiveStay(states, events, bounds, store, maxL0, u, i, k - 1, v, x);
      Q.RunKeepsInv(states, events, maxL0, u, k - 1);
      RunStored(states, events, bounds, store, maxL0, u, k - 1);
      StepKeepsLive(states[k - 1], events[k - 1], bounds[k - 1], store, maxL0, u, v, x);
    }
  }

  /** A table that arrives holds nothing older of a key than the levels do. */
  ghost predicate ArrivesInOrder(s: Q.State, e: Q.Event, store: Store) {
    e.Replicated? && e.index < |s.inflight| ==> Latest(s.ls, store, s.inflight[e.index])
  }

  lemma {:induction false} StepKeepsAbove(s: Q.State, e: Q.Event, bound: int, store: Store, maxL0: int, u: iset<Bytes>)
    requires Q.Inv(s, maxL0, u) && Q.EventOk(s, e, u) && StateStored(s, store, u) && StoredEvent(s, e, bound, store, u)
    requires ArrivesInOrder(s, e, store) && NewerAbove(s.ls, store)
    ensures NewerAbove(Q.Step(s, e, maxL0, u).ls, store)
  {
    hide Q.Inv, Q.EventOk, Q.Step, ChangeOk, After, StateStored, StoredEvent, NewerAbove, MergedBy;
    if e.Replicated? {
      StepArrives(s, e, maxL0, u);
      ArrivesAbove(s, e.index, store, maxL0, u);
    } else if AppliesJob(s, e) {
      StoredOuts(s, e, bound, store, u);
      AppliedStored(s, e, bound, store, maxL0, u);
      NewerAboveKept(ChangeBy(s.ls, s.inProgress[e.id].job, e.outs, store), u);
    } else {
      StepTables(s, e, maxL0, u);
      SameTablesAbove(s.ls, Q.Step(s, e, maxL0, u).ls, store);
    }
  }

  lemma {:induction false} ArrivesAbove(s: Q.State, i: nat, store: Store, maxL0: int, u: iset<Bytes>)
    requires Q.Inv(s, maxL0, u) && NewerAbove(s.ls, store)
    requires i < |s.inflight| ==> Latest(s.ls, store, s.inflight[i])
    ensures NewerAbove(Q.ApplyL0(s, i).ls, store)
  {
    hide Q.Books, Q.L0Ok, Core, TablesAt, SetLevel, NewerAbove, Latest, WellFormed;
    if i < |s.inflight| {
      var t, ls := s.inflight[i], s.ls;
      assert t in s.inflight + s.pendingAdds;
      var ts := AddTo(0, TablesAt(ls, 0), t);
      forall l: nat ensures TablesAt(SetLevel(ls, 0, ts), l) == if l == 0 then ts else TablesAt(ls, l) {
        SetLevelAt(ls, 0, ts, l);
      }
      ArrivalAbove(ls, SetLevel(ls, 0, ts), store, t);
    }
  }

  lemma {:induction false} RunKeepsAbove(states: seq<Q.State>, events: seq<Q.Event>, bounds: seq<int>, store: Store,
                                         maxL0: int, u: iset<Bytes>, k: nat)
    requires IsStoredRun(states, events, bounds, store, maxL0, u) && k < |states|
    requires forall m | 0 <= m < k :: ArrivesInOrder(states[m], events[m], store)
    ensures NewerAbove(states[k].ls, store)
  {
    hide Q.Inv, Q.EventOk, Q.Step, StateStored, StoredEvent, NewerAbove, ArrivesInOrder;
    if k == 0 {
      NothingAbove(store);
    } else {
      RunKeepsAbove(states, events, bounds, store, maxL0, u, k - 1);
      Q.RunKeepsInv(states, events, maxL0, u, k - 1);
      RunStored(states, events, bounds, store, maxL0, u, k - 1);
      StepKeepsAbove(states[k - 1], events[k - 1], bounds[k - 1], store, maxL0, u);
    }
  }

  lemma {:induction false} NothingAbove(store: Store)
    ensures NewerAbove(Q.Start().ls, store)
  {
  }

  /** As Still, and a job that drops tombstones and reads k as deleted has deleted it for good. */
  ghost predicate Settles(s: Q.State, e: Q.Event, bound: int, store: Store, v: int, k: Bytes) {
    && Still(s, e, bound, v)
    && (AppliesJob(s, e) && !s.inProgress[e.id].job.preserveTombstones
        && InStore(Members(s.inProgress[e.id].job), store) ==>
          Settled(Contents(Members(s.inProgress[e.id].job), store), k, v, bound))
  }

  lemma {:induction false} StepShows(s: Q.State, e: Q.Event, bound: int, store: Store, maxL0: int, u: iset<Bytes>,
                                     v: UInt64, x: Entry)
    requires Q.Inv(s, maxL0, u) && Q.EventOk(s, e, u) && StateStored(s, store, u) && StoredEvent(s, e, bound, store, u)
    requires DropsOk(s.ls, Q.Outstanding(s)) && NewerAbove(s.ls, store)
    requires Settles(s, e, bound, store, v, UKey(x))
    ensures Shows(s.ls, store, v, x) <==> Shows(Q.Step(s, e, maxL0, u).ls, store, v, x)
  {
    hide Q.Inv, Q.EventOk, Q.Step, Reads, ChangeOk, After, StateStored, NewerAbove, Settled, NothingBelow, MergedBy;
    hide Describes, FromSources, Merged, UKey, Settles;
    if AppliesJob(s, e) {
      var j := s.inProgress[e.id].job;
      assert j in Q.Outstanding(s);
      AppliedStored(s, e, bound, store, maxL0, u);
      SettlesAt(s, e, bound, store, v, UKey(x));
      ChangeShows(ChangeBy(s.ls, j, e.outs, store), u, v, x, bound);
    } else {
      StepIsStill(s, e, bound, store, v, UKey(x));
      StepTables(s, e, maxL0, u);
      SameTablesRead(s.ls, Q.Step(s, e, maxL0, u).ls, store, v, x);
    }
  }

  lemma {:induction false} StepIsStill(s: Q.State, e: Q.Event, bound: int, store: Store, v: int, k: Bytes)
    requires Settles(s, e, bound, store, v, k)
    ensures Still(s, e, bound, v)
  {
  }

  lemma {:induction false} SettlesAt(s: Q.State, e: Q.Event, bound: int, store: Store, v: int, k: Bytes)
    requires Settles(s, e, bound, store, v, k) && AppliesJob(s, e) && InStore(Members(s.inProgress[e.id].job), store)
    ensures bound <= v
    ensures var j := s.inProgress[e.id].job;
            !j.preserveTombstones ==> Settled(Contents(Members(j), store), k, v, bound)
  {
    hide Settled;
  }

  lemma {:induction false} ChangeShows(c: Change, u: iset<Bytes>, v: UInt64, x: Entry, bound: int)
    requires ChangeOk(c, u) && MergedBy(c, bound) && bound <= v && NewerAbove(c.ls, c.store)
    requires !c.job.preserveTombstones ==> Settled(JobTables(c), UKey(x), v, bound) && NothingBelow(c.job, c.ls)
    ensures Shows(c.ls, c.store, v, x) <==> Shows(After(c), c.store', v, x)
  {
    hide ChangeOk, After, Reads, NewerAbove, NothingBelow, Settled, NewerOutside, LiveKept, NoTombstones, DeletesDone;
    hide SameAt, SameSnapshots, UKey;
    if SameSnapshots(JobTables(c), Concat(c.written), bound) {
      SnapshotAt(c, bound, v);
      ReadsUnchanged(c, u, v, x);
    } else {
      AboveIsNewer(c, u, UKey(x));
      ShowsUnchanged(c, u, v, x, bound);
    }
  }

  /**
   In every run in which tables arrive in order, between two states with no table arriving and only jobs
   applied that merged with bounds up to v, reads at v show the same values, whichever jobs drop tombstones:
   as long as the deletes of the key that those jobs drop are done.
   */
  lemma {:induction false} ShownStay(states: seq<Q.State>, events: seq<Q.Event>, bounds: seq<int>, store: Store,
                                     maxL0: int, u: iset<Bytes>, i: nat, k: nat, v: UInt64, x: Entry)
    requires IsStoredRun(states, events, bounds, store, maxL0, u) && i <= k < |states|
    requires forall m | 0 <= m < i :: ArrivesInOrder(states[m], events[m], store)
    requires forall m | i <= m < k :: Settles(states[m], events[m], bounds[m], store, v, UKey(x))
    ensures Shows(states[i].ls, store, v, x) <==> Shows(states[k].ls, store, v, x)
  {
    hide Q.Inv, Q.EventOk, Q.Step, StateStored, StoredEvent, Settles, Shows, NewerAbove, DropsOk, ArrivesInOrder, UKey;
    if i < k {
      ShownStay(states, events, bounds, store, maxL0, u, i, k - 1, v, x);
      Q.RunKeepsInv(states, events, maxL0, u, k - 1);
      RunStored(states, events, bounds, store, maxL0, u, k - 1);
      RunKeepsDrops(states, events, maxL0, u, k - 1);
      forall m | 0 <= m < k - 1 ensures ArrivesInOrder(states[m], events[m], store) {
        if m >= i { NoArrival(states[m], events[m], bounds[m], store, v, UKey(x)); }
      }
      RunKeepsAbove(states, events, bounds, store, maxL0, u, k - 1);
      StepShows(states[k - 1], events[k - 1], bounds[k - 1], store, maxL0, u, v, x);
    }
  }

  lemma {:induction false} NoArrival(s: Q.State, e: Q.Event, bound: int, store: Store, v: int, k: Bytes)
    requires Settles(s, e, bound, store, v, k)
    ensures ArrivesInOrder(s, e, store)
  {
  }

  /** In every run a job that drops tombstones leaves none in the tables that are applied for it, moves included. */
  lemma {:induction false} NoneWritten(states: seq<Q.State>, events: seq<Q.Event>, bounds: seq<int>, store: Store,
                                       maxL0: int, u: iset<Bytes>, k: nat, x: Entry)
    requires IsStoredRun(states, events, bounds, store, maxL0, u) && k < |events| && AppliesJob(states[k], events[k])
    requires !states[k].inProgress[events[k].id].job.preserveTombstones
    requires exists t | t in events[k].outs :: t.id in store && x in store[t.id]
    ensures !IsTombstone(x)
  {
    hide Q.EventOk, Q.Step, CleanMove, FromSources, LiveKept, SameSnapshots, DeletesDone, Describes, Contents;
    var j, outs := states[k].inProgress[events[k].id].job, events[k].outs;
    assert j in Q.Outstanding(states[k]);
    MovesAreClean(states, events, maxL0, u, k, j);
    assert StoredEvent(states[k], events[k], bounds[k], store, u);
    var t :| t in outs && t.id in store && x in store[t.id];
    var i :| 0 <= i < |outs| && outs[i] == t;
    assert x in Contents(outs, store)[i];
    ConcatMembers(Contents(outs, store), x);
  }

  // ----- the worker

  /**
   A worker carries out a job that is outstanding in some state of the run. What it leaves in the store is
   what the run asks of it, at whatever later state it is applied and whatever else is stored meanwhile.
   */
  method Work(j: Job, store: Store, mint: nat -> TableID, sizeOf: seq<Entry> -> nat, maxTableSize: nat,
              lastFlushedVersion: int, ghost s: Q.State, ghost maxL0: int, ghost u: iset<Bytes>)
    returns (outs: Tables, written: seq<seq<Entry>>)
    requires -1 <= lastFlushedVersion < TWO63 && maxTableSize > 21
    requires Q.Inv(s, maxL0, u) && StateStored(s, store, u) && j in Q.Outstanding(s) && Mints(mint, s.ls)
    ensures OutputOk(j, outs, s.ls, u)
    ensures forall later | Extends(store, j, outs, written, later) ::
              WorkerDid(j, outs, later, MinNonCompactable(lastFlushedVersion), u)
  {
    hide Q.Books, Q.L0Ok, Q.AddsOk, LevelsSound, JobOk, OutputOk, Describes, FromSources, SameSnapshots, Mints, FreshId;
    hide AllStored, WorkerDid, Extends;
    CoreParts(s.ls, Q.Outstanding(s), s.locked, u);
    JobStored(j, store, s.ls, u);
    MoveAlone(j, s.ls, u);
    outs, written := ProcessJob(j, store, mint, sizeOf, maxTableSize, lastFlushedVersion, s.ls, u);
    ghost var bound := MinNonCompactable(lastFlushedVersion);
    forall later | Extends(store, j, outs, written, later) ensures WorkerDid(j, outs, later, bound, u) {
      if j.isMove { MoveDid(j, outs, store, later, written, bound, u); }
      else { MergeDid(j, outs, store, later, written, bound, u); }
    }
  }

  lemma {:induction false} MoveAlone(j: Job, ls: Levels, u: iset<Bytes>)
    requires LevelsSound(ls, u) && JobOk(j, ls, u)
    ensures j.isMove ==> j.overlap == []
  {
    hide LevelsSound, HoldsOverlap, CompactionSpec.NewestFirst, TablesAt, SingleSource;
  }

  lemma {:induction false} MergeDid(j: Job, outs: Tables, store: Store, later: Store, written: seq<seq<Entry>>,
                                    bound: int, u: iset<Bytes>)
    requires !j.isMove && Stored(Members(j), store, u) && Extends(store, j, outs, written, later)
    requires |outs| == |written| && forall i | 0 <= i < |outs| :: Describes(outs[i], written[i], u)
    requires FromSources(Contents(Members(j), store), Concat(written), MAX_UINT64)
    requires Merged(j, Contents(Members(j), store), Concat(written), bound)
    ensures WorkerDid(j, outs, later, bound, u)
  {
    hide Describes, FromSources, Merged;
    SameContents(Members(j), store, later);
    assert Contents(outs, later) == written;
  }

  lemma {:induction false} NothingLive(j: Job, es: seq<Entry>, bound: int)
    requires AllTombstones(es) && !j.preserveTombstones
    ensures Merged(j, [es], [], bound)
  {
    forall v, x, i: nat | IsLatest([es], v, x, i) ensures IsTombstone(x) { assert InSources([es], x, i); }
  }

  lemma {:induction false} MoveDid(j: Job, outs: Tables, store: Store, later: Store, written: seq<seq<Entry>>,
                                   bound: int, u: iset<Bytes>)
    requires j.isMove && |j.source| == 1 && j.overlap == [] && Stored(Members(j), store, u)
    requires Extends(store, j, outs, written, later)
    requires outs == j.source || (outs == [] && !j.preserveTombstones && AllTombstones(store[j.source[0].id]))
    ensures WorkerDid(j, outs, later, bound, u)
  {
    hide Describes, IsLatest, Ver;
    SameContents(Members(j), store, later);
    var t := j.source[0];
    assert Members(j) == [t] && t in Members(j);
    var es := store[t.id];
    assert Contents(Members(j), later) == [es];
    if outs == [] {
      assert Contents(outs, later) == [];
      NothingLive(j, es, bound);
    } else {
      assert Contents(outs, later) == [es];
      assert Concat(Contents(outs, later)) == es by { assert Contents(outs, later)[1..] == []; }
      forall v, x ensures (exists i: nat :: IsLatest([es], v, x, i)) <==> IsLatest([es], v, x, 0) {
        OneSourceLatest(es, v, x);
      }
      assert forall x | x in es :: InSources([es], x, 0);
      if CleanMove(j) { NoDeletes(t, es, u); }
    }
  }

  lemma {:induction false} NoDeletes(t: TableEntry, es: seq<Entry>, u: iset<Bytes>)
    requires Describes(t, es, u)
    ensures t.deleteRatio <= 0.0 ==> NoTombstones(es)
  {
  }
}
