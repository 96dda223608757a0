/**
 levels/compaction.go: which jobs may drop tombstones. A merge that drops them is safe only if nothing older
 lies below its destination. A job is scheduled to keep them exactly if there is a level below its
 destination; and while a job that drops them is outstanding, whatever other jobs do, no table in its way
 gets below it. The module also states what a step does to the tables and to the order of queued jobs.
 */
module CompactionDrops {
  import opened Bytes
  import opened LevelSpec
  import opened LevelIndex
  import opened MasterRecord
  import opened CompactionSpec
  import opened CompactionQueue

  // ----- what a step does to the tables

  ghost function Adds(s: State): Tables { s.inflight + s.pendingAdds }

  ghost predicate AppliesJob(s: State, e: Event) { e.Finished? && e.id in s.inProgress }

  ghost predicate SameTables(s: State, s': State) { forall l: nat :: TablesAt(s'.ls, l) == TablesAt(s.ls, l) }

  lemma {:induction false} ResizeTables(ls: Levels, n: nat)
    ensures forall l: nat :: TablesAt(Resize(ls, n), l) == TablesAt(ls, l)
  {
  }

  lemma {:induction false} UpperTables(s: State, e: Event, u: iset<Bytes>)
    requires e.ScheduledUpper? && EventOk(s, e, u)
    ensures Searchable(e.choices)
    ensures SameTables(s, ScheduleUpper(s, e.level, e.choices))
    ensures Adds(ScheduleUpper(s, e.level, e.choices)) == Adds(s)
  {
    hide EventOk, BuildJobs, EnqueueAll, TablesAt, Resize;
    UpperSearchable(s, e, u);
    var ls := Resize(s.ls, e.level + 2);
    var b := BuildJobs(ls, s.locked, e.level, e.choices, |s.ls| - 1 > e.level + 1);
    EnqueueAllElse(s.(ls := ls, locked := b.locked), b.jobs);
    ResizeTables(s.ls, e.level + 2);
  }

  lemma {:induction false} ZeroTables(s: State, e: Event, u: iset<Bytes>)
    requires e.ScheduledZero? && EventOk(s, e, u)
    ensures CanIncrement(e.hi)
    ensures SameTables(s, ScheduleZero(s, e.source, e.lo, e.hi, e.id))
    ensures Adds(ScheduleZero(s, e.source, e.lo, e.hi, e.id)) == Adds(s)
  {
    hide Enqueue, TablesAt, Resize, ZeroJob;
    ResizeTables(s.ls, 2);
    var ls := Resize(s.ls, 2);
    var j := ZeroJob(ls, e.source, e.lo, e.hi, e.id, |s.ls| - 1 > 1);
    EnqueueElse(s.(ls := ls, locked := s.locked + LockIds(j)), j);
  }

  lemma {:induction false} CancelTables(s: State, id: JobID)
    ensures SameTables(s, Cancel(s, id)) && Adds(Cancel(s, id)) == Adds(s)
  {
    hide Enqueue, TablesAt;
    if id in s.inProgress { EnqueueElse(Leave(s, id).(timedOut := s.timedOut + 1), s.inProgress[id].job); }
  }

  /** Only a table that arrives and a job that is applied change the tables. */
  lemma {:induction false} StepTables(s: State, e: Event, maxL0: int, u: iset<Bytes>)
    requires EventOk(s, e, u) && !e.Replicated? && !AppliesJob(s, e)
    ensures SameTables(s, Step(s, e, maxL0, u))
  {
    hide TablesAt, EventOk, ScheduleUpper, ScheduleZero, Cancel;
    if e.ScheduledUpper? { UpperTables(s, e, u); }
    else if e.ScheduledZero? { ZeroTables(s, e, u); }
    else if e.Cancelled? { CancelTables(s, e.id); }
  }

  // ----- what a step does to the outstanding jobs

  ghost predicate Schedules(e: Event) { e.ScheduledUpper? || e.ScheduledZero? }

  /** Every job that was built is the job for a choice. */
  lemma {:induction false} BuiltFrom(ls: Levels, locked: set<TableID>, level: nat, cs: seq<Choice>, preserve: bool,
                                     j: Job) returns (c: Choice)
    requires Searchable(cs) && j in BuildJobs(ls, locked, level, cs, preserve).jobs
    ensures c in cs && HasBounds(c.table) && CanIncrement(Hi(c.table)) && j == JobFor(ls, level, c, preserve)
  {
    hide Unlocked, LockIds, JobFor;
    var n := |cs| - 1;
    if j in BuildJobs(ls, locked, level, cs[..n], preserve).jobs {
      c := BuiltFrom(ls, locked, level, cs[..n], preserve, j);
    } else {
      c := cs[n];
    }
  }

  /** A table is locked, or held by one of the jobs. */
  ghost predicate Taken(t: TableEntry, locked: set<TableID>, jobs: seq<Job>) {
    t.id in locked || exists j | j in jobs :: t.id in LockIds(j)
  }

  /** And each choice has its job, unless one of the tables is taken. */
  lemma {:induction false} BuiltOrTaken(ls: Levels, locked: set<TableID>, level: nat, cs: seq<Choice>, preserve: bool,
                                        i: nat)
    requires Searchable(cs) && i < |cs|
    ensures var b, j := BuildJobs(ls, locked, level, cs, preserve), JobFor(ls, level, cs[i], preserve);
            j in b.jobs || exists t | t in Members(j) :: Taken(t, locked, b.jobs)
  {
    hide JobFor, LockIds;
    var n := |cs| - 1;
    var a, b := BuildJobs(ls, locked, level, cs[..n], preserve), BuildJobs(ls, locked, level, cs, preserve);
    var j := JobFor(ls, level, cs[i], preserve);
    assert forall x | x in a.jobs :: x in b.jobs;
    if i < n {
      BuiltOrTaken(ls, locked, level, cs[..n], preserve, i);
      if j !in b.jobs {
        var t :| t in Members(j) && Taken(t, locked, a.jobs);
        assert Taken(t, locked, b.jobs);
      }
    } else if j !in b.jobs {
      var t :| t in Members(j) && t.id in a.locked;
      LockedBy(ls, locked, level, cs[..n], preserve, t);
      assert Taken(t, locked, b.jobs);
    }
  }

  lemma {:induction false} LockedBy(ls: Levels, locked: set<TableID>, level: nat, cs: seq<Choice>, preserve: bool,
                                    t: TableEntry)
    requires Searchable(cs) && t.id in BuildJobs(ls, locked, level, cs, preserve).locked
    ensures Taken(t, locked, BuildJobs(ls, locked, level, cs, preserve).jobs)
  {
    hide JobFor, LockIds, Unlocked;
    if cs != [] {
      var n := |cs| - 1;
      var a := BuildJobs(ls, locked, level, cs[..n], preserve);
      if t.id in a.locked { LockedBy(ls, locked, level, cs[..n], preserve, t); }
    }
  }

  /** A level below the destination of j exists. */
  ghost predicate LevelBelow(j: Job, ls: Levels) { j.levelFrom + 2 < |ls| }

  /** The jobs built when a level above 0 is scheduled. */
  ghost function UpperBuilt(s: State, e: Event, u: iset<Bytes>): seq<Job>
    requires EventOk(s, e, u) && e.ScheduledUpper?
  {
    BuildJobs(Resize(s.ls, e.level + 2), s.locked, e.level, e.choices, |s.ls| - 1 > e.level + 1).jobs
  }

  lemma {:induction false} UpperJobs(s: State, e: Event, maxL0: int, u: iset<Bytes>)
    requires Inv(s, maxL0, u) && EventOk(s, e, u) && e.ScheduledUpper?
    ensures forall j :: j in Outstanding(Step(s, e, maxL0, u)) <==> j in Outstanding(s) || j in UpperBuilt(s, e, u)
  {
    hide Core, Books, L0Ok, AddsOk, Outstanding, BuildJobs, EnqueueAll, Resize, Searchable;
    var level, cs := e.level, e.choices;
    var ls, preserve := Resize(s.ls, level + 2), |s.ls| - 1 > level + 1;
    ResizeKeepsCore(s.ls, level + 2, Outstanding(s), s.locked, u);
    BuildKeepsCore(ls, Outstanding(s), s.locked, level, cs, preserve, u);
    var b := BuildJobs(ls, s.locked, level, cs, preserve);
    var s1 := s.(ls := ls, locked := b.locked);
    SameBooks(s, s1, "");
    forall i | 0 <= i < |b.jobs| ensures NewId(s1, b.jobs[i].id) {
      assert b.jobs[i] in b.jobs;
      SameBooks(s, s1, b.jobs[i].id);
    }
    EnqueueAllKeepsBooks(s1, b.jobs);
  }

  lemma {:induction false} ZeroJobs(s: State, e: Event, maxL0: int, u: iset<Bytes>, j: Job)
    requires Inv(s, maxL0, u) && EventOk(s, e, u) && e.ScheduledZero?
    requires j in Outstanding(Step(s, e, maxL0, u)) && j !in Outstanding(s)
    ensures (j.preserveTombstones <==> LevelBelow(j, s.ls)) && !j.isMove
  {
    hide Core, Books, L0Ok, AddsOk, Outstanding, Resize, IsRange, TablesAt, Enqueue, Unlocked, LockIds, Overlapping;
    hide Increment;
    var ls := Resize(s.ls, 2);
    var z := ZeroJob(ls, e.source, e.lo, e.hi, e.id, |s.ls| - 1 > 1);
    SameBooks(s, s.(ls := ls), "");
    if Unlocked(z, s.locked) {
      var s1 := s.(ls := ls, locked := s.locked + LockIds(z));
      SameBooks(s, s1, e.id);
      EnqueueKeepsBooks(s1, z);
    }
  }

  /** Only scheduling makes jobs, and only completion ends one. */
  lemma {:induction false} OtherJobs(s: State, e: Event, maxL0: int, u: iset<Bytes>)
    requires Inv(s, maxL0, u) && EventOk(s, e, u) && !Schedules(e)
    ensures Outstanding(Step(s, e, maxL0, u))
            == Outstanding(s) - if AppliesJob(s, e) then {s.inProgress[e.id].job} else {}
  {
    hide Core, L0Ok, AddsOk, Outstanding, Books, Applied, RegisterIn, Enqueue;
    match e
    case Polled(c) => PollKeepsBooks(s, c);
    case PollTimedOut(i) => PollTimeoutJobs(s, i);
    case Cancelled(id) => CancelKeepsBooks(s, id);
    case Finished(id, outs) => if id in s.inProgress { FinishedJobs(s, id, outs, maxL0); }
    case Registered(t) => SameBooks(s, RegisterL0(s, t, maxL0), "");
    case Replicated(i) => SameBooks(s, ApplyL0(s, i), "");
    case ReplicationFailed(i) => SameBooks(s, FailL0(s, i), "");
    case _ =>
  }

  lemma {:induction false} PollTimeoutJobs(s: State, i: nat)
    ensures Outstanding(PollTimeout(s, i)) == Outstanding(s)
  {
  }

  lemma {:induction false} FinishedJobs(s: State, id: JobID, outs: Tables, maxL0: int)
    requires Books(s) && id in s.inProgress
    ensures Outstanding(ApplyCompaction(s, id, outs, maxL0)) == Outstanding(s) - {s.inProgress[id].job}
  {
    hide Outstanding, Books, Applied, Complete;
    CompleteKeepsBooks(s, id);
    SameBooks(Complete(s, id), ApplyCompaction(s, id, outs, maxL0), "");
  }

  // ----- which jobs are moves

  /** The job of a choice moves its table, or merges it. */
  ghost predicate MovesAs(j: Job, c: Choice, ls: Levels) {
    && j.id == c.id && j.source == [c.table]
    && (j.isMove <==> c.unexpired && j.overlap == [] && (LevelBelow(j, ls) || c.table.deleteRatio <= 0.0))
  }

  /**
   In every run: a job above level 0 is a move if and only if nothing in its table has expired, nothing overlaps
   it and either there is a level below its destination or the table has no deletes. Level 0 is always merged.
   */
  lemma {:induction false} MovesIff(states: seq<State>, events: seq<Event>, maxL0: int, u: iset<Bytes>, k: nat, j: Job)
    requires Keys(u) && maxL0 >= 0 && IsRun(states, events, maxL0, u) && k < |events|
    requires j in Outstanding(states[k + 1]) && j !in Outstanding(states[k])
    ensures events[k].ScheduledUpper? ==> exists c | c in events[k].choices :: MovesAs(j, c, states[k].ls)
    ensures events[k].ScheduledZero? ==> !j.isMove
  {
    hide Inv, EventOk, Step, Outstanding, MovesAs;
    RunKeepsInv(states, events, maxL0, u, k);
    if events[k].ScheduledUpper? { UpperMoves(states[k], events[k], maxL0, u, j); }
    if events[k].ScheduledZero? { ZeroJobs(states[k], events[k], maxL0, u, j); }
  }

  lemma {:induction false} UpperMoves(s: State, e: Event, maxL0: int, u: iset<Bytes>, j: Job)
    requires Inv(s, maxL0, u) && EventOk(s, e, u) && e.ScheduledUpper?
    requires j in Outstanding(Step(s, e, maxL0, u)) && j !in Outstanding(s)
    ensures exists c | c in e.choices :: MovesAs(j, c, s.ls)
  {
    hide Inv, Step, Outstanding, BuildJobs, Overlapping, Increment;
    UpperJobs(s, e, maxL0, u);
    var c := BuiltFrom(Resize(s.ls, e.level + 2), s.locked, e.level, e.choices, |s.ls| - 1 > e.level + 1, j);
    assert MovesAs(j, c, s.ls);
  }

  /** A move that drops tombstones is of a table without any. */
  ghost predicate CleanMove(j: Job) {
    j.isMove && !j.preserveTombstones ==> forall t | t in j.source :: t.deleteRatio <= 0.0
  }

  /** In every reachable state. */
  lemma {:induction false} MovesAreClean(states: seq<State>, events: seq<Event>, maxL0: int, u: iset<Bytes>, k: nat,
                                         j: Job)
    requires Keys(u) && maxL0 >= 0 && IsRun(states, events, maxL0, u) && k < |states| && j in Outstanding(states[k])
    ensures CleanMove(j)
  {
    hide Inv, EventOk, Step, CleanMove;
    if k > 0 {
      if j in Outstanding(states[k - 1]) { MovesAreClean(states, events, maxL0, u, k - 1, j); }
      else { MoveBegins(states, events, maxL0, u, k - 1, j); }
    }
  }

  lemma {:induction false} MoveBegins(states: seq<State>, events: seq<Event>, maxL0: int, u: iset<Bytes>, k: nat,
                                      j: Job)
    requires Keys(u) && maxL0 >= 0 && IsRun(states, events, maxL0, u) && k < |events|
    requires j in Outstanding(states[k + 1]) && j !in Outstanding(states[k])
    ensures CleanMove(j)
  {
    hide IsRun, Outstanding, LevelBelow;
    KeptIffLevelBelow(states, events, maxL0, u, k, j);
    MovesIff(states, events, maxL0, u, k, j);
  }

  /** In every run each table chosen gets its job, unless it or a table of its overlap is taken. */
  lemma {:induction false} NonePassedOver(states: seq<State>, events: seq<Event>, maxL0: int, u: iset<Bytes>, k: nat,
                                          i: nat)
    requires Keys(u) && maxL0 >= 0 && IsRun(states, events, maxL0, u) && k < |events|
    requires events[k].ScheduledUpper? && i < |events[k].choices|
    ensures var s, e := states[k], events[k];
            && EventOk(s, e, u)
            && var j := JobFor(Resize(s.ls, e.level + 2), e.level, e.choices[i], |s.ls| - 1 > e.level + 1);
               j in Outstanding(states[k + 1])
               || exists t | t in Members(j) :: Taken(t, s.locked, UpperBuilt(s, e, u))
  {
    hide Inv, Step, Outstanding, BuildJobs, JobFor, Resize, Taken;
    var s, e := states[k], events[k];
    RunKeepsInv(states, events, maxL0, u, k);
    UpperJobs(s, e, maxL0, u);
    BuiltOrTaken(Resize(s.ls, e.level + 2), s.locked, e.level, e.choices, |s.ls| - 1 > e.level + 1, i);
  }

  // ----- what lies below a job that drops tombstones

  ghost predicate NothingBelow(j: Job, ls: Levels) {
    forall l: nat, x | l > j.levelFrom + 1 && x in TablesAt(ls, l) :: Clear(x, j)
  }

  ghost predicate EmptyBelow(j: Job, ls: Levels) { forall l: nat | l > j.levelFrom + 1 :: TablesAt(ls, l) == [] }

  ghost predicate DropsOk(ls: Levels, jobs: set<Job>) {
    forall j | j in jobs && !j.preserveTombstones :: NothingBelow(j, ls)
  }

  /** A job from below the destination of j holds nothing in j's way, and so has all of it on one side. */
  lemma {:induction false} BelowApart(i: Job, j: Job, ls: Levels, u: iset<Bytes>)
    requires LevelsSound(ls, u) && JobOk(i, ls, u) && JobOk(j, ls, u) && PairOk(i, j)
    requires NothingBelow(j, ls) && i.levelFrom > j.levelFrom
    ensures JobsApart(i, j)
  {
    hide LevelsSound, PrefixFree, WellFormed, Precedes, Touches, NewestFirst, Ascending, TablesAt, Clear;
    SoundKeys(ls, u);
    var s, m := i.source[0], j.source[0];
    assert s in i.source && s in Members(i) && m in j.source && m in Members(j);
    assert Clear(s, j) by { assert s in j.overlap ==> s in Members(j); }
    SourceWellFormed(j, ls, u);
    forall o | o in i.overlap
      ensures AheadOf(s, j) ==> AheadOf(o, j)
      ensures BehindOf(s, j) ==> BehindOf(o, j)
    {
      assert o in TablesAt(ls, i.levelFrom + 1) && Clear(o, j);
      SameSide(s, o, j, m, ls, i.levelFrom + 1, u);
    }
    SidesApart(i, j, s);
  }

  lemma {:induction false} SourceWellFormed(j: Job, ls: Levels, u: iset<Bytes>)
    requires LevelsSound(ls, u) && JobOk(j, ls, u)
    ensures j.source != [] && WellFormed(j.source[0], u)
  {
    hide WellFormed, HoldsOverlap, SingleSource, NewestFirst, Ascending, AllFlatOk, UniqueIds, TablesAt;
    assert j.source[0] in j.source;
    WellFormedAt(ls, j.levelFrom, j.source[0], u);
  }

  lemma {:induction false} SameSide(s: TableEntry, o: TableEntry, j: Job, m: TableEntry, ls: Levels, l: nat,
                                    u: iset<Bytes>)
    requires LevelsSound(ls, u) && WellFormed(s, u) && o in TablesAt(ls, l) && Touches(s, o, u)
    requires m in Members(j) && WellFormed(m, u) && Clear(s, j) && Clear(o, j)
    ensures AheadOf(s, j) ==> AheadOf(o, j)
    ensures BehindOf(s, j) ==> BehindOf(o, j)
  {
    hide PrefixFree, WellFormed, Precedes, Touches, AllFlatOk, UniqueIds, TablesAt;
    WellFormedAt(ls, l, o, u);
    if AheadOf(s, j) && BehindOf(o, j) { RightExact(s, m, o, u); }
    if BehindOf(s, j) && AheadOf(o, j) {
      PrecedesTrans(o, m, s, u);
      LeftExact(s, o, u);
    }
  }

  lemma {:induction false} SidesApart(i: Job, j: Job, s: TableEntry)
    requires i.source == [s] && Clear(s, j)
    requires forall o | o in i.overlap :: (AheadOf(s, j) ==> AheadOf(o, j)) && (BehindOf(s, j) ==> BehindOf(o, j))
    ensures JobsApart(i, j)
  {
    hide Precedes;
    assert forall a | a in Members(i) :: a == s || a in i.overlap;
  }

  lemma {:induction false} NoneBelowYet(j: Job, ls: Levels, ls': Levels)
    requires !LevelBelow(j, ls) && forall l: nat :: TablesAt(ls', l) == TablesAt(ls, l)
    ensures NothingBelow(j, ls')
  {
  }

  lemma {:induction false} SameBelow(j: Job, ls: Levels, ls': Levels)
    requires NothingBelow(j, ls)
    requires forall l: nat, x | l > j.levelFrom + 1 && x in TablesAt(ls', l) :: x in TablesAt(ls, l)
    ensures NothingBelow(j, ls')
  {
    hide TablesAt, Clear;
  }

  /** The output of another job does not get in the way either. */
  lemma {:induction false} AppliedBelow(ls: Levels, i: Job, outs: Tables, j: Job, u: iset<Bytes>)
    requires LevelsSound(ls, u) && JobOk(i, ls, u) && JobOk(j, ls, u) && PairOk(i, j) && OutputOk(i, outs, ls, u)
    requires NothingBelow(j, ls)
    ensures NothingBelow(j, Applied(ls, i, outs))
  {
    hide LevelsSound, JobOk, PairOk, OutputOk, TablesAt, Clear, Applied, JobsApart;
    forall l: nat, x | l > j.levelFrom + 1 && x in TablesAt(Applied(ls, i, outs), l) ensures Clear(x, j) {
      AppliedAt(ls, i, outs, x, l, u);
      if x !in TablesAt(ls, l) {
        BelowApart(i, j, ls, u);
        OutputWithin(i, outs, ls, x, u);
        OutputClear(i, j, x);
      }
    }
  }

  lemma {:induction false} StepKeepsDrops(s: State, e: Event, maxL0: int, u: iset<Bytes>)
    requires Inv(s, maxL0, u) && EventOk(s, e, u) && DropsOk(s.ls, Outstanding(s))
    ensures DropsOk(Step(s, e, maxL0, u).ls, Outstanding(Step(s, e, maxL0, u)))
  {
    var s' := Step(s, e, maxL0, u);
    hide Inv, EventOk, Step, Outstanding, NothingBelow, LevelBelow;
    forall j | j in Outstanding(s') && !j.preserveTombstones ensures NothingBelow(j, s'.ls) {
      if j in Outstanding(s) { DropStays(s, e, maxL0, u, j); } else { DropBegins(s, e, maxL0, u, j); }
    }
  }

  lemma {:induction false} DropBegins(s: State, e: Event, maxL0: int, u: iset<Bytes>, j: Job)
    requires Inv(s, maxL0, u) && EventOk(s, e, u)
    requires j in Outstanding(Step(s, e, maxL0, u)) && j !in Outstanding(s) && !j.preserveTombstones
    ensures NothingBelow(j, Step(s, e, maxL0, u).ls)
  {
    hide Inv, EventOk, Step, Outstanding, NothingBelow, TablesAt;
    if !Schedules(e) { OtherJobs(s, e, maxL0, u); }
    JobKeepsTombstones(s, e, maxL0, u, j);
    StepTables(s, e, maxL0, u);
    NoneBelowYet(j, s.ls, Step(s, e, maxL0, u).ls);
  }

  /** A job is scheduled to keep tombstones if and only if a level below its destination exists. */
  lemma {:induction false} JobKeepsTombstones(s: State, e: Event, maxL0: int, u: iset<Bytes>, j: Job)
    requires Inv(s, maxL0, u) && EventOk(s, e, u)
    requires j in Outstanding(Step(s, e, maxL0, u)) && j !in Outstanding(s)
    ensures Schedules(e) && (j.preserveTombstones <==> LevelBelow(j, s.ls))
  {
    hide Inv, EventOk, Step, Outstanding, LevelBelow;
    if !Schedules(e) { OtherJobs(s, e, maxL0, u); }
    if e.ScheduledUpper? { UpperKeeps(s, e, maxL0, u, j); } else { ZeroJobs(s, e, maxL0, u, j); }
  }

  lemma {:induction false} UpperKeeps(s: State, e: Event, maxL0: int, u: iset<Bytes>, j: Job)
    requires Inv(s, maxL0, u) && EventOk(s, e, u) && e.ScheduledUpper?
    requires j in Outstanding(Step(s, e, maxL0, u)) && j !in Outstanding(s)
    ensures j.preserveTombstones <==> LevelBelow(j, s.ls)
  {
    hide Inv, Step, Outstanding, BuildJobs, Resize;
    UpperJobs(s, e, maxL0, u);
    var c := BuiltFrom(Resize(s.ls, e.level + 2), s.locked, e.level, e.choices, |s.ls| - 1 > e.level + 1, j);
  }

  lemma {:induction false} DropStays(s: State, e: Event, maxL0: int, u: iset<Bytes>, j: Job)
    requires Inv(s, maxL0, u) && EventOk(s, e, u) && j in Outstanding(s) && NothingBelow(j, s.ls)
    requires j in Outstanding(Step(s, e, maxL0, u))
    ensures NothingBelow(j, Step(s, e, maxL0, u).ls)
  {
    var s' := Step(s, e, maxL0, u);
    hide NothingBelow, TablesAt;
    if AppliesJob(s, e) {
      AppliedDropStays(s, e, maxL0, u, j);
    } else if e.Replicated? {
      ArrivalBelow(s, e.index, maxL0, u, j);
    } else {
      hide EventOk, Step, Inv;
      StepTables(s, e, maxL0, u);
      SameBelow(j, s.ls, s'.ls);
    }
  }

  lemma {:induction false} AppliedDropStays(s: State, e: Event, maxL0: int, u: iset<Bytes>, j: Job)
    requires Inv(s, maxL0, u) && EventOk(s, e, u) && j in Outstanding(s) && NothingBelow(j, s.ls) && AppliesJob(s, e)
    requires j in Outstanding(Step(s, e, maxL0, u))
    ensures NothingBelow(j, Step(s, e, maxL0, u).ls)
  {
    hide NothingBelow, Outstanding, Books, L0Ok, AddsOk, OutputOk, JobOk, PairOk, LevelsSound, Applied;
    var i := s.inProgress[e.id].job;
    OtherJobs(s, e, maxL0, u);
    OutstandingIs(s, i);
    CoreParts(s.ls, Outstanding(s), s.locked, u);
    assert FinishOk(s, e.id, e.outs, u);
    AppliedBelow(s.ls, i, e.outs, j, u);
  }

  lemma {:induction false} ArrivalBelow(s: State, index: nat, maxL0: int, u: iset<Bytes>, j: Job)
    requires Inv(s, maxL0, u) && NothingBelow(j, s.ls)
    ensures NothingBelow(j, ApplyL0(s, index).ls)
  {
    hide NothingBelow, Outstanding, Books, L0Ok, TablesAt, RegisterIn, Core, WellFormed, FreshId;
    if index < |s.inflight| {
      var t := s.inflight[index];
      assert t in s.inflight + s.pendingAdds;
      RegisterZeroKeepsCore(s.ls, Outstanding(s), s.locked, t, u);
      SameBelow(j, s.ls, RegisterIn(s.ls, Reg(0, t)));
    }
  }

  // ----- over runs

  lemma {:induction false} RunKeepsDrops(states: seq<State>, events: seq<Event>, maxL0: int, u: iset<Bytes>, k: nat)
    requires Keys(u) && maxL0 >= 0 && IsRun(states, events, maxL0, u) && k < |states|
    ensures DropsOk(states[k].ls, Outstanding(states[k]))
  {
    hide Inv, EventOk, Step, DropsOk;
    if k == 0 {
      NothingAtStart();
    } else {
      RunKeepsDrops(states, events, maxL0, u, k - 1);
      RunKeepsInv(states, events, maxL0, u, k - 1);
      StepKeepsDrops(states[k - 1], events[k - 1], maxL0, u);
    }
  }

  lemma {:induction false} NothingAtStart()
    ensures DropsOk(Start().ls, Outstanding(Start()))
  {
  }

  /**
   In every run: a job that appears keeps tombstones if and only if a level below its destination exists;
   so with one that drops them there is no table below its destination.
   */
  lemma {:induction false} KeptIffLevelBelow(states: seq<State>, events: seq<Event>, maxL0: int, u: iset<Bytes>, k: nat,
                                             j: Job)
    requires Keys(u) && maxL0 >= 0 && IsRun(states, events, maxL0, u) && k < |events|
    requires j in Outstanding(states[k + 1]) && j !in Outstanding(states[k])
    ensures Schedules(events[k]) && (j.preserveTombstones <==> LevelBelow(j, states[k].ls))
    ensures !j.preserveTombstones ==> EmptyBelow(j, states[k + 1].ls)
  {
    hide Inv, EventOk, Step, Outstanding;
    RunKeepsInv(states, events, maxL0, u, k);
    JobKeepsTombstones(states[k], events[k], maxL0, u, j);
    StepTables(states[k], events[k], maxL0, u);
  }

  /** In every reachable state no table below the destination of a job that drops tombstones shares a key with it. */
  lemma {:induction false} NothingBelowShares(states: seq<State>, events: seq<Event>, maxL0: int, u: iset<Bytes>,
                                              k: nat, j: Job, l: nat, x: TableEntry, m: TableEntry)
    requires Keys(u) && maxL0 >= 0 && IsRun(states, events, maxL0, u) && k < |states|
    requires j in Outstanding(states[k]) && !j.preserveTombstones && m in Members(j)
    requires l > j.levelFrom + 1 && x in TablesAt(states[k].ls, l)
    ensures Apart(x, m)
  {
    hide IsRun, Outstanding, TablesAt, Precedes;
    RunKeepsDrops(states, events, maxL0, u, k);
    assert Clear(x, j);
  }

  // ----- the queue

  lemma {:induction false} EnqueuedLast(s: State, j: Job)
    ensures s.queue <= Enqueue(s, j).queue
  {
  }

  lemma {:induction false} AllEnqueuedLast(s: State, jobs: seq<Job>)
    ensures s.queue <= EnqueueAll(s, jobs).queue
  {
    hide Enqueue;
    if jobs != [] {
      AllEnqueuedLast(s, jobs[..|jobs| - 1]);
      EnqueuedLast(EnqueueAll(s, jobs[..|jobs| - 1]), jobs[|jobs| - 1]);
    }
  }

  /** A poll takes the job at the front of the queue; jobs are added at its end. */
  lemma {:induction false} StepQueue(s: State, e: Event, maxL0: int, u: iset<Bytes>)
    requires EventOk(s, e, u)
    ensures var s' := Step(s, e, maxL0, u);
            if e.Polled? && s.queue != []
            then && s'.queue == s.queue[1..] && s.queue[0].id in s'.inProgress
                 && s'.inProgress[s.queue[0].id] == Running(s.queue[0], e.connection)
            else s.queue <= s'.queue
  {
    hide EventOk, Enqueue, EnqueueAll, BuildJobs, ZeroJob, Applied, RegisterIn, Resize;
    if e.ScheduledUpper? {
      UpperSearchable(s, e, u);
      var ls := Resize(s.ls, e.level + 2);
      var b := BuildJobs(ls, s.locked, e.level, e.choices, |s.ls| - 1 > e.level + 1);
      AllEnqueuedLast(s.(ls := ls, locked := b.locked), b.jobs);
    } else if e.ScheduledZero? {
      ZeroQueue(s, e, u);
    } else if e.Cancelled? && e.id in s.inProgress {
      EnqueuedLast(Leave(s, e.id).(timedOut := s.timedOut + 1), s.inProgress[e.id].job);
    }
  }

  lemma {:induction false} ZeroQueue(s: State, e: Event, u: iset<Bytes>)
    requires e.ScheduledZero? && EventOk(s, e, u)
    ensures CanIncrement(e.hi) && s.queue <= ScheduleZero(s, e.source, e.lo, e.hi, e.id).queue
  {
    hide Enqueue, TablesAt, Resize, ZeroJob;
    var ls := Resize(s.ls, 2);
    var j := ZeroJob(ls, e.source, e.lo, e.hi, e.id, |s.ls| - 1 > 1);
    EnqueuedLast(s.(ls := ls, locked := s.locked + LockIds(j)), j);
  }

  /** Some jobs have left q from the front, and others have come after the rest. */
  ghost predicate MovesOn(q: seq<Job>, q': seq<Job>) { exists d | 0 <= d <= |q| :: q[d..] <= q' }

  /** In every run queued jobs are handed out in the order in which they were queued. */
  lemma {:induction false} QueuedInOrder(states: seq<State>, events: seq<Event>, maxL0: int, u: iset<Bytes>, i: nat,
                                         k: nat)
    requires IsRun(states, events, maxL0, u) && i <= k < |states|
    ensures MovesOn(states[i].queue, states[k].queue)
  {
    hide EventOk, Step;
    var q := states[i].queue;
    if i == k {
      assert q[0..] <= q;
    } else {
      QueuedInOrder(states, events, maxL0, u, i, k - 1);
      StepQueue(states[k - 1], events[k - 1], maxL0, u);
      MovedOn(q, states[k - 1].queue, states[k].queue);
    }
  }

  lemma {:induction false} MovedOn(q: seq<Job>, q': seq<Job>, q'': seq<Job>)
    requires MovesOn(q, q') && (q' <= q'' || (q' != [] && q'' == q'[1..]))
    ensures MovesOn(q, q'')
  {
    var d :| 0 <= d <= |q| && q[d..] <= q';
    if q' <= q'' {
      assert q[d..] <= q'';
    } else if d < |q| {
      assert q[d + 1..] == q[d..][1..];
      assert q[d + 1..] <= q'';
    } else {
      assert q[|q|..] <= q'';
    }
  }

  // ----- a connection that is closed

  /** The jobs in progress on a connection. */
  function On(inProgress: map<JobID, Running>, connection: nat): set<JobID> {
    set id | id in inProgress && inProgress[id].connection == connection
  }

  /** The pollers that were given a job. */
  function Served(before: seq<nat>, after: seq<nat>): seq<nat>
    requires |after| <= |before|
  {
    before[|after|..]
  }

  /** What a visit to jobs on the connection, each at most once, has done so far: those gone are available again. */
  ghost predicate Released(s: State, connection: nat, gone: set<JobID>, s': State) {
    && gone <= On(s.inProgress, connection) && s'.pollers <= s.pollers
    && |s.pollers| - |s'.pollers| == (if |gone| <= |s.pollers| then |gone| else |s.pollers|)
    && (forall id | id in s.inProgress && id !in gone :: id in s'.inProgress && s'.inProgress[id] == s.inProgress[id])
    && (forall id | id in s'.inProgress :: id in s.inProgress)
    && (forall id | id in gone ::
          || s.inProgress[id].job in s'.queue
          || (id in s'.inProgress && s'.inProgress[id].job == s.inProgress[id].job
              && s'.inProgress[id].connection in Served(s.pollers, s'.pollers)))
    && (forall c | c in Served(s.pollers, s'.pollers) :: exists id :: id in gone && OnConnection(s', id, c))
  }

  ghost predicate OnConnection(s: State, id: JobID, c: nat) { id in s.inProgress && s.inProgress[id].connection == c }

  lemma {:induction false} NoneReleased(s: State, connection: nat)
    ensures Released(s, connection, {}, s)
  {
  }

  /** One more job of the connection is made available again. */
  lemma {:induction false} ReleaseOne(s: State, connection: nat, gone: set<JobID>, s': State, id: JobID)
    requires Released(s, connection, gone, s') && Books(s') && id in On(s.inProgress, connection) && id !in gone
    ensures Released(s, connection, gone + {id}, Cancel(s', id))
  {
    var r, job := Cancel(s', id), s.inProgress[id].job;
    JobHasId(s', id);
    assert s'.inProgress[id] == s.inProgress[id];
    assert |gone + {id}| == |gone| + 1;
    if |s'.pollers| > 0 { ReleaseToPoller(s, connection, gone, s', id); }
    else { ReleaseToQueue(s, connection, gone, s', id); }
  }

  lemma {:induction false} ReleaseToPoller(s: State, connection: nat, gone: set<JobID>, s': State, id: JobID)
    requires Released(s, connection, gone, s') && id in On(s.inProgress, connection) && id !in gone
    requires s'.inProgress[id] == s.inProgress[id] && s.inProgress[id].job.id == id && |s'.pollers| > 0
    ensures Released(s, connection, gone + {id}, Cancel(s', id))
  {
    var r, n := Cancel(s', id), |s'.pollers|;
    var p := s'.pollers[n - 1];
    assert r.pollers == s'.pollers[..n - 1] && r.queue == s'.queue;
    assert forall x | x in s'.inProgress && x != id :: x in r.inProgress && r.inProgress[x] == s'.inProgress[x];
    assert r.inProgress[id] == Running(s.inProgress[id].job, p);
    assert Served(s.pollers, r.pollers) == [p] + Served(s.pollers, s'.pollers);
    assert |gone + {id}| == |gone| + 1;
    forall c | c in Served(s.pollers, r.pollers) ensures exists x :: x in gone + {id} && OnConnection(r, x, c) {
      if c == p {
        assert OnConnection(r, id, c);
      } else {
        var x :| x in gone && OnConnection(s', x, c);
        assert OnConnection(r, x, c);
      }
    }
  }

  lemma {:induction false} ReleaseToQueue(s: State, connection: nat, gone: set<JobID>, s': State, id: JobID)
    requires Released(s, connection, gone, s') && id in On(s.inProgress, connection) && id !in gone
    requires s'.inProgress[id] == s.inProgress[id] && s.inProgress[id].job.id == id && |s'.pollers| == 0
    ensures Released(s, connection, gone + {id}, Cancel(s', id))
  {
    var r := Cancel(s', id);
    assert r.pollers == s'.pollers && r.queue == s'.queue + [s.inProgress[id].job];
    assert forall x | x in s'.inProgress && x != id :: x in r.inProgress && r.inProgress[x] == s'.inProgress[x];
    assert |gone + {id}| == |gone| + 1;
    forall c | c in Served(s.pollers, r.pollers) ensures exists x :: x in gone + {id} && OnConnection(r, x, c) {
      var x :| x in gone && OnConnection(s', x, c);
      assert OnConnection(r, x, c);
    }
  }

  /**
   Afterwards no job is in progress on the closed connection if and only if no poller of it was given one:
   pollers of the connection still wait when its jobs are handed out again.
   */
  lemma {:induction false} ReleasedAll(s: State, connection: nat, s': State)
    requires Released(s, connection, On(s.inProgress, connection), s') && Books(s) && Books(s')
    ensures On(s'.inProgress, connection) == {} <==> connection !in Served(s.pollers, s'.pollers)
  {
    if connection in Served(s.pollers, s'.pollers) {
      var id :| id in On(s.inProgress, connection) && OnConnection(s', id, connection);
      assert id in On(s'.inProgress, connection);
    }
    forall id | id in On(s'.inProgress, connection) ensures connection in Served(s.pollers, s'.pollers) {
      JobHasId(s, id);
      if s.inProgress[id].job in s'.queue { QueuedNotRunning(s', s.inProgress[id].job); }
    }
  }

  lemma {:induction false} QueuedNotRunning(s: State, j: Job)
    requires Books(s) && j in s.queue
    ensures j.id !in s.inProgress
  {
  }

  /** Cancelling a job leaves the others in progress alone. */
  lemma {:induction false} CancelSpares(s: State, id: JobID, x: JobID)
    requires Books(s) && id in s.inProgress && x in s.inProgress && x != id
    ensures x in Cancel(s, id).inProgress && Cancel(s, id).inProgress[x] == s.inProgress[x]
  {
    JobHasId(s, id);
  }
}
