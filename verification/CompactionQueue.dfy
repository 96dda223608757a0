/**
 levels/compaction.go and levels/level_manager.go: the level manager as a state machine. Every method
 of the source runs under one lock, so each is one step: scheduling a compaction, a worker's poll,
 a poll or job timeout, a closed connection, a finished job, and level 0 registrations with their
 blocking queue. Whatever the steps and their order, the invariant below holds.
 */
module CompactionQueue {
  import opened Bytes
  import opened KeyEncoding
  import opened LevelSpec
  import opened LevelIndex
  import opened MasterRecord
  import opened CompactionSpec

  datatype Running = Running(job: Job, connection: nat)

  /** queued, running and timedOut are the published statistics; done records finished job ids. */
  datatype State = State(ls: Levels,
                         queue: seq<Job>, inProgress: map<JobID, Running>, locked: set<TableID>,
                         pending: map<nat, int>, pollers: seq<nat>,
                         queued: int, running: int, completed: int, timedOut: int,
                         inflight: seq<TableEntry>, pendingAdds: seq<TableEntry>,
                         done: set<JobID>, arrived: seq<TableEntry>, sent: seq<TableEntry>, failed: bool)

  function Outstanding(s: State): set<Job> {
    (set j | j in s.queue) + (set id | id in s.inProgress :: s.inProgress[id].job)
  }

  function CountOf(m: map<nat, int>, l: nat): int { if l in m then m[l] else 0 }

  function Bump(m: map<nat, int>, l: nat, diff: int): map<nat, int> { m[l := CountOf(m, l) + diff] }

  // ----- the steps on jobs

  /** queueOrDespatchJob: to a waiting poller if there is one, else to the end of the queue. */
  function Enqueue(s: State, j: Job): State {
    var n := |s.pollers|;
    if n > 0 then
      s.(inProgress := s.inProgress[j.id := Running(j, s.pollers[n - 1])], pollers := s.pollers[..n - 1],
         running := s.running + 1, pending := Bump(s.pending, j.levelFrom, 1))
    else
      s.(queue := s.queue + [j], queued := s.queued + 1, pending := Bump(s.pending, j.levelFrom, 1))
  }

  function EnqueueAll(s: State, jobs: seq<Job>): State {
    if jobs == [] then s else Enqueue(EnqueueAll(s, jobs[..|jobs| - 1]), jobs[|jobs| - 1])
  }

  /** pollForJob: the oldest queued job, or wait. */
  function Poll(s: State, connection: nat): State {
    if s.queue != [] then
      s.(queue := s.queue[1..], queued := s.queued - 1,
         inProgress := s.inProgress[s.queue[0].id := Running(s.queue[0], connection)], running := s.running + 1)
    else
      s.(pollers := s.pollers + [connection])
  }

  /** A poller's timeout: the poller leaves. */
  function PollTimeout(s: State, i: nat): State {
    if i < |s.pollers| then s.(pollers := s.pollers[..i] + s.pollers[i + 1..]) else s
  }

  /** A job leaves the map of jobs in progress. */
  function Leave(s: State, id: JobID): State
    requires id in s.inProgress
  {
    s.(inProgress := s.inProgress - {id}, running := s.running - 1,
       pending := Bump(s.pending, s.inProgress[id].job.levelFrom, -1))
  }

  /** cancelInProgressJob, on a job timeout or a closed connection: the job becomes available again. */
  function Cancel(s: State, id: JobID): State {
    if id in s.inProgress then
      Enqueue(Leave(s, id).(timedOut := s.timedOut + 1), s.inProgress[id].job)
    else s
  }

  /** compactionComplete */
  function Complete(s: State, id: JobID): State
    requires id in s.inProgress
  {
    Leave(s, id).(completed := s.completed + 1, locked := s.locked - LockIds(s.inProgress[id].job),
      done := s.done + {id})
  }

  /** applyCompactionChanges: only for a job in progress; anything else is refused. */
  ghost function ApplyCompaction(s: State, id: JobID, outs: Tables, maxL0: int): State {
    if id in s.inProgress then
      DispatchAdds(Complete(s, id).(ls := Applied(s.ls, s.inProgress[id].job, outs)), maxL0)
    else s
  }

  // ----- the steps on level 0

  /** getL0FreeSpace */
  ghost function FreeSpace(s: State, maxL0: int): int { maxL0 - |TablesAt(s.ls, 0)| - |s.inflight| }

  /** RegisterL0Tables: send if there is room, else wait in line. */
  ghost function RegisterL0(s: State, t: TableEntry, maxL0: int): State {
    var s' := s.(arrived := s.arrived + [t]);
    if FreeSpace(s, maxL0) >= 1 then s'.(inflight := s.inflight + [t], sent := s.sent + [t])
    else s'.(pendingAdds := s.pendingAdds + [t])
  }

  /** maybeDespatchPendingL0Adds */
  ghost function DispatchAdds(s: State, maxL0: int): State {
    var free := FreeSpace(s, maxL0);
    var n := if free <= 0 then 0 else if |s.pendingAdds| < free then |s.pendingAdds| else free;
    s.(inflight := s.inflight + s.pendingAdds[..n], sent := s.sent + s.pendingAdds[..n],
      pendingAdds := s.pendingAdds[n..])
  }

  /** ApplyChanges for a level 0 registration that came back from replication. */
  ghost function ApplyL0(s: State, i: nat): State {
    if i < |s.inflight| then
      s.(inflight := s.inflight[..i] + s.inflight[i + 1..], ls := RegisterIn(s.ls, Reg(0, s.inflight[i])))
    else s
  }

  /** Replication failed: the reservation is given back, and nothing is dispatched in its place. */
  function FailL0(s: State, i: nat): State {
    if i < |s.inflight| then s.(inflight := s.inflight[..i] + s.inflight[i + 1..], failed := true) else s
  }

  // ----- scheduling

  /** What the scheduler needs to know of a table besides the levels. */
  datatype Choice = Choice(table: TableEntry, id: JobID, unexpired: bool)

  ghost function JobFor(ls: Levels, level: nat, c: Choice, preserve: bool): Job
    requires HasBounds(c.table) && CanIncrement(Hi(c.table))
  {
    var overlap := Overlapping(Lo(c.table), Some(Increment(Hi(c.table))), TablesAt(ls, level + 1));
    var move := c.unexpired && overlap == [] && (level + 1 != |ls| - 1 || !(c.table.deleteRatio > 0.0));
    Job(c.id, level, [c.table], overlap, move, preserve)
  }

  ghost predicate Searchable(cs: seq<Choice>) {
    forall i | 0 <= i < |cs| :: HasBounds(cs[i].table) && CanIncrement(Hi(cs[i].table))
  }

  datatype Built = Built(jobs: seq<Job>, locked: set<TableID>)

  /** scheduleCompaction above level 0: a job for each table that is free with all its overlap. */
  ghost function BuildJobs(ls: Levels, locked: set<TableID>, level: nat, cs: seq<Choice>, preserve: bool): Built
    requires Searchable(cs)
  {
    if cs == [] then Built([], locked)
    else
      var n := |cs| - 1;
      var b := BuildJobs(ls, locked, level, cs[..n], preserve);
      var j := JobFor(ls, level, cs[n], preserve);
      if Unlocked(j, b.locked) then Built(b.jobs + [j], b.locked + LockIds(j)) else b
  }

  ghost function ScheduleUpper(s: State, level: nat, cs: seq<Choice>): State
    requires Searchable(cs)
  {
    var ls := Resize(s.ls, level + 2);
    var b := BuildJobs(ls, s.locked, level, cs, |s.ls| - 1 > level + 1);
    EnqueueAll(s.(ls := ls, locked := b.locked), b.jobs)
  }

  /** The job from level 0: all its tables, newest first, and the overlap of their whole range. */
  ghost function ZeroJob(ls: Levels, source: Tables, lo: Bytes, hi: Bytes, id: JobID, preserve: bool): Job
    requires CanIncrement(hi)
  {
    Job(id, 0, source, Overlapping(lo, Some(Increment(hi)), TablesAt(ls, 1)), false, preserve)
  }

  ghost function ScheduleZero(s: State, source: Tables, lo: Bytes, hi: Bytes, id: JobID): State
    requires CanIncrement(hi)
  {
    var ls := Resize(s.ls, 2);
    var j := ZeroJob(ls, source, lo, hi, id, |s.ls| - 1 > 1);
    if Unlocked(j, s.locked) then Enqueue(s.(ls := ls, locked := s.locked + LockIds(j)), j) else s.(ls := ls)
  }

  /** The range of a set of tables, without versions. */
  ghost predicate IsRange(ts: Tables, lo: Bytes, hi: Bytes) {
    && (forall t | t in ts :: Inside(t, lo, hi))
    && (exists t | t in ts :: HasBounds(t) && Lo(t) == lo)
    && (exists t | t in ts :: HasBounds(t) && Hi(t) == hi)
  }

  // ----- the invariant

  ghost predicate IdsOk(s: State) {
    && (forall i, k | 0 <= i < k < |s.queue| :: s.queue[i].id != s.queue[k].id)
    && (forall id | id in s.inProgress :: s.inProgress[id].job.id == id)
    && (forall i | 0 <= i < |s.queue| :: s.queue[i].id !in s.inProgress)
    && (forall j | j in Outstanding(s) :: j.id !in s.done)
  }

  ghost function From(jobs: set<Job>, l: nat): set<Job> { set j | j in jobs && j.levelFrom == l }

  ghost predicate StatsOk(s: State) {
    && s.queued == |s.queue| && s.running == |s.inProgress| && s.completed == |s.done|
    && (forall l: nat :: CountOf(s.pending, l) == |From(Outstanding(s), l)|)
    && (s.queue != [] ==> s.pollers == [])
  }

  /** Everything about queueing: ids and statistics. */
  ghost predicate Books(s: State) { IdsOk(s) && StatsOk(s) }

  ghost predicate L0Ok(s: State, maxL0: int) {
    && |TablesAt(s.ls, 0)| + |s.inflight| <= maxL0
    && (!s.failed ==> s.arrived == s.sent + s.pendingAdds && (s.pendingAdds != [] ==> FreeSpace(s, maxL0) <= 0))
  }

  /** Level 0 tables on their way in are new to the levels and to each other. */
  ghost predicate AddsOk(s: State, u: iset<Bytes>) {
    var adds := s.inflight + s.pendingAdds;
    DistinctIds(adds) && forall t | t in adds :: WellFormed(t, u) && FreshId(t.id, s.ls)
  }

  ghost predicate Inv(s: State, maxL0: int, u: iset<Bytes>) {
    Core(s.ls, Outstanding(s), s.locked, u) && Books(s) && L0Ok(s, maxL0) && AddsOk(s, u)
  }

  // ----- queueing: the set of outstanding jobs

  ghost predicate NewId(s: State, id: JobID) {
    id !in s.done && forall j | j in Outstanding(s) :: j.id != id
  }

  lemma {:induction false} OutstandingIs(s: State, j: Job)
    ensures j in Outstanding(s) <==> j in s.queue || exists id :: id in s.inProgress && s.inProgress[id].job == j
  {
  }

  lemma {:induction false} EnqueueOutstanding(s: State, j: Job)
    requires IdsOk(s) && NewId(s, j.id)
    ensures j !in Outstanding(s) && Outstanding(Enqueue(s, j)) == Outstanding(s) + {j}
    ensures j.id !in s.inProgress
  {
    var s' := Enqueue(s, j);
    if j.id in s.inProgress { OutstandingIs(s, s.inProgress[j.id].job); }
    forall k ensures k in Outstanding(s') <==> k in Outstanding(s) || k == j {
      OutstandingIs(s, k);
      OutstandingIs(s', k);
      if id :| id in s.inProgress && s.inProgress[id].job == k {
        assert id in s'.inProgress && s'.inProgress[id].job == k;
      }
      if k == j && |s.pollers| > 0 { assert s'.inProgress[j.id].job == j; }
    }
  }

  lemma {:induction false} FromGrows(jobs: set<Job>, j: Job, l: nat)
    requires j !in jobs
    ensures |From(jobs + {j}, l)| == |From(jobs, l)| + if j.levelFrom == l then 1 else 0
  {
    if j.levelFrom == l {
      assert From(jobs + {j}, l) == From(jobs, l) + {j};
    } else {
      assert From(jobs + {j}, l) == From(jobs, l);
    }
  }

  lemma {:induction false} EnqueueKeepsIds(s: State, j: Job)
    requires IdsOk(s) && NewId(s, j.id)
    ensures IdsOk(Enqueue(s, j))
  {
    hide Outstanding;
    EnqueueOutstanding(s, j);
    forall i | 0 <= i < |s.queue| ensures s.queue[i].id != j.id { OutstandingIs(s, s.queue[i]); }
  }

  lemma {:induction false} EnqueueKeepsBooks(s: State, j: Job)
    requires Books(s) && NewId(s, j.id)
    ensures Books(Enqueue(s, j)) && Outstanding(Enqueue(s, j)) == Outstanding(s) + {j} && j !in Outstanding(s)
  {
    hide Outstanding, From, IdsOk, NewId;
    var s' := Enqueue(s, j);
    EnqueueOutstanding(s, j);
    EnqueueKeepsIds(s, j);
    forall l: nat ensures CountOf(s'.pending, l) == |From(Outstanding(s'), l)| { FromGrows(Outstanding(s), j, l); }
  }

  lemma {:induction false} PollOutstanding(s: State, connection: nat)
    requires IdsOk(s)
    ensures Outstanding(Poll(s, connection)) == Outstanding(s)
  {
    var s' := Poll(s, connection);
    forall k ensures k in Outstanding(s') <==> k in Outstanding(s) {
      hide Outstanding;
      OutstandingIs(s, k);
      OutstandingIs(s', k);
      if s.queue != [] {
        assert s.queue == [s.queue[0]] + s.queue[1..];
        if id :| id in s.inProgress && s.inProgress[id].job == k {
          assert id in s'.inProgress && s'.inProgress[id].job == k;
        }
        assert s'.inProgress[s.queue[0].id].job == s.queue[0];
      }
    }
  }

  lemma {:induction false} PollKeepsBooks(s: State, connection: nat)
    requires Books(s)
    ensures Books(Poll(s, connection)) && Outstanding(Poll(s, connection)) == Outstanding(s)
  {
    hide Outstanding, From;
    PollOutstanding(s, connection);
  }

  lemma {:induction false} LeaveKeepsBooks(s: State, id: JobID)
    requires Books(s) && id in s.inProgress
    ensures var j := s.inProgress[id].job;
            j in Outstanding(s) && Outstanding(Leave(s, id)) == Outstanding(s) - {j}
            && Books(Leave(s, id)) && NewId(Leave(s, id), id)
  {
    var j, s' := s.inProgress[id].job, Leave(s, id);
    OutstandingIs(s, j);
    forall k ensures k in Outstanding(s') <==> k in Outstanding(s) && k != j {
      OutstandingIs(s, k);
      OutstandingIs(s', k);
      if k != j {
        if i :| i in s.inProgress && s.inProgress[i].job == k {
          assert i in s'.inProgress && s'.inProgress[i].job == k;
        }
      }
    }
    var rest := Outstanding(s');
    assert rest == Outstanding(s) - {j} && Outstanding(s) == rest + {j};
    forall l: nat ensures CountOf(s'.pending, l) == |From(rest, l)| { FromGrows(rest, j, l); }
    LeaveSize(s.inProgress, id);
  }

  lemma {:induction false} LeaveSize(m: map<JobID, Running>, id: JobID)
    requires id in m
    ensures |m - {id}| == |m| - 1
  {
    assert m == (m - {id})[id := m[id]];
  }

  lemma {:induction false} CancelKeepsBooks(s: State, id: JobID)
    requires Books(s)
    ensures Books(Cancel(s, id)) && Outstanding(Cancel(s, id)) == Outstanding(s)
  {
    hide Outstanding, Leave, Enqueue, Books;
    if id in s.inProgress {
      JobHasId(s, id);
      LeaveKeepsBooks(s, id);
      var s' := Leave(s, id).(timedOut := s.timedOut + 1);
      SameBooks(Leave(s, id), s', id);
      EnqueueKeepsBooks(s', s.inProgress[id].job);
    }
  }

  lemma {:induction false} JobHasId(s: State, id: JobID)
    requires Books(s) && id in s.inProgress
    ensures s.inProgress[id].job.id == id
  {
  }

  /** The books are about the jobs only. */
  lemma {:induction false} SameBooks(s: State, s': State, id: JobID)
    requires Books(s) && s'.queue == s.queue && s'.inProgress == s.inProgress && s'.pending == s.pending
    requires s'.pollers == s.pollers && s'.queued == s.queued && s'.running == s.running
    requires s'.done == s.done && s'.completed == s.completed
    ensures Books(s') && Outstanding(s') == Outstanding(s) && (NewId(s, id) ==> NewId(s', id))
  {
  }

  lemma {:induction false} CompleteKeepsBooks(s: State, id: JobID)
    requires Books(s) && id in s.inProgress
    ensures Books(Complete(s, id)) && Outstanding(Complete(s, id)) == Outstanding(s) - {s.inProgress[id].job}
    ensures id !in s.done && s.inProgress[id].job in Outstanding(s)
  {
    LeaveKeepsBooks(s, id);
    var s', c := Leave(s, id), Complete(s, id);
    OutstandingIs(s, s.inProgress[id].job);
    assert Outstanding(c) == Outstanding(s');
  }

  // ----- scheduling keeps the invariant

  /** Growing the list of levels changes no level. */
  lemma {:induction false} ResizeKeepsCore(ls: Levels, n: nat, jobs: set<Job>, locked: set<TableID>, u: iset<Bytes>)
    requires Core(ls, jobs, locked, u)
    ensures Core(Resize(ls, n), jobs, locked, u)
    ensures forall l: nat :: TablesAt(Resize(ls, n), l) == TablesAt(ls, l)
  {
    hide JobOk, PairOk, LocksOk, Keys, FlatOk;
    var ls' := Resize(ls, n);
    forall l: nat ensures TablesAt(ls', l) == TablesAt(ls, l) {}
    forall l | 0 <= l < |ls'| ensures FlatOk(l, ls'[l], u) {
      EmptyFlatOk(l, u);
      assert l < |ls| ==> ls'[l] == ls[l];
    }
    forall j | j in jobs ensures JobOk(j, ls', u) { SameTablesJobOk(j, ls, ls', u); }
  }

  lemma {:induction false} SameTablesJobOk(j: Job, ls: Levels, ls': Levels, u: iset<Bytes>)
    requires Keys(u) && JobOk(j, ls, u) && forall l: nat :: TablesAt(ls', l) == TablesAt(ls, l)
    ensures JobOk(j, ls', u)
  {
    hide Clear, SingleSource, TablesAt, Keys;
  }

  ghost predicate ChoicesOk(ls: Levels, level: nat, cs: seq<Choice>) {
    && level > 0
    && (forall c | c in cs :: c.table in TablesAt(ls, level))
    && (forall i, k | 0 <= i < k < |cs| :: cs[i].id != cs[k].id)
  }

  ghost predicate BuiltFrom(jobs: seq<Job>, cs: seq<Choice>) {
    && (forall j | j in jobs :: exists c | c in cs :: c.id == j.id)
    && (forall i, k | 0 <= i < k < |jobs| :: jobs[i].id != jobs[k].id)
  }

  lemma {:induction false} JobForOk(ls: Levels, level: nat, c: Choice, preserve: bool, u: iset<Bytes>)
    requires LevelsSound(ls, u) && level > 0 && c.table in TablesAt(ls, level)
    requires HasBounds(c.table) && CanIncrement(Hi(c.table))
    ensures JobOk(JobFor(ls, level, c, preserve), ls, u)
  {
    hide AllFlatOk, UniqueIds, PrefixFree, JobOk, Overlapping;
    WellFormedAt(ls, level, c.table, u);
    RankOrderAll();
    SearchedJobOk(JobFor(ls, level, c, preserve), ls, Lo(c.table), Hi(c.table), u);
  }

  ghost function JobSet(jobs: seq<Job>): set<Job> { set j | j in jobs }

  lemma {:induction false} JobSetGrows(jobs: set<Job>, more: seq<Job>, j: Job)
    ensures jobs + JobSet([]) == jobs
    ensures jobs + JobSet(more + [j]) == jobs + JobSet(more) + {j}
  {
  }

  lemma {:induction false} BuildKeepsCore(ls: Levels, jobs: set<Job>, locked: set<TableID>, level: nat, cs: seq<Choice>,
                                          preserve: bool, u: iset<Bytes>)
    requires Core(ls, jobs, locked, u) && ChoicesOk(ls, level, cs) && Searchable(cs)
    ensures var b := BuildJobs(ls, locked, level, cs, preserve);
            Core(ls, jobs + JobSet(b.jobs), b.locked, u) && BuiltFrom(b.jobs, cs)
  {
    hide Core, HasBounds, JobFor, TablesAt, CanIncrement, Unlocked, LockIds, JobSet, BuiltFrom;
    if cs == [] {
      JobSetGrows(jobs, [], Job("", 0, [], [], false, false));
      NoneBuilt();
    } else {
      var n := |cs| - 1;
      var c := cs[n];
      assert forall x | x in cs[..n] :: x in cs;
      assert cs == cs[..n] + [c];
      BuildKeepsCore(ls, jobs, locked, level, cs[..n], preserve, u);
      var b, j := BuildJobs(ls, locked, level, cs[..n], preserve), JobFor(ls, level, c, preserve);
      JobForIs(ls, level, c, preserve);
      BuiltGrows(b.jobs, cs[..n], j, c);
      if Unlocked(j, b.locked) {
        BuildStep(ls, jobs + JobSet(b.jobs), b.locked, level, c, preserve, u);
        JobSetGrows(jobs, b.jobs, j);
      }
    }
  }

  lemma {:induction false} NoneBuilt()
    ensures BuiltFrom([], [])
  {
  }

  lemma {:induction false} BuildStep(ls: Levels, jobs: set<Job>, locked: set<TableID>, level: nat, c: Choice,
                                     preserve: bool, u: iset<Bytes>)
    requires Core(ls, jobs, locked, u) && level > 0 && c.table in TablesAt(ls, level)
    requires HasBounds(c.table) && CanIncrement(Hi(c.table))
    requires Unlocked(JobFor(ls, level, c, preserve), locked)
    ensures Core(ls, jobs + {JobFor(ls, level, c, preserve)}, locked + LockIds(JobFor(ls, level, c, preserve)), u)
  {
    hide Core, JobOk, LevelsSound, Unlocked;
    CoreParts(ls, jobs, locked, u);
    JobForOk(ls, level, c, preserve, u);
    AddJobKeepsCore(ls, jobs, locked, JobFor(ls, level, c, preserve), u);
  }

  lemma {:induction false} JobForIs(ls: Levels, level: nat, c: Choice, preserve: bool)
    requires HasBounds(c.table) && CanIncrement(Hi(c.table))
    ensures JobFor(ls, level, c, preserve).id == c.id && JobFor(ls, level, c, preserve).levelFrom == level
  {
  }

  lemma {:induction false} BuiltGrows(jobs: seq<Job>, cs: seq<Choice>, j: Job, c: Choice)
    requires BuiltFrom(jobs, cs) && j.id == c.id && forall x | x in cs :: x.id != c.id
    ensures BuiltFrom(jobs + [j], cs + [c]) && BuiltFrom(jobs, cs + [c])
  {
    forall i | 0 <= i < |jobs| ensures jobs[i].id != j.id { assert jobs[i] in jobs; }
    forall x | x in jobs + [j] ensures exists y | y in cs + [c] :: y.id == x.id {
      if x in jobs {
        var y :| y in cs && y.id == x.id;
        assert y in cs + [c];
      } else {
        assert c in cs + [c];
      }
    }
  }

  lemma {:induction false} EnqueueAllKeepsBooks(s: State, jobs: seq<Job>)
    requires Books(s) && forall i | 0 <= i < |jobs| :: NewId(s, jobs[i].id)
    requires forall i, k | 0 <= i < k < |jobs| :: jobs[i].id != jobs[k].id
    ensures var s' := EnqueueAll(s, jobs);
            Books(s') && Outstanding(s') == Outstanding(s) + JobSet(jobs) && SameElse(s, s') && s'.done == s.done
  {
    hide Books, Outstanding, Enqueue;
    if jobs == [] {
      assert Outstanding(s) + JobSet(jobs) == Outstanding(s);
    } else {
      var n := |jobs| - 1;
      EnqueueAllKeepsBooks(s, jobs[..n]);
      var s', j := EnqueueAll(s, jobs[..n]), jobs[n];
      forall k | k in Outstanding(s') ensures k.id != j.id {
        if k in jobs[..n] { var i :| 0 <= i < n && jobs[i] == k; }
      }
      assert NewId(s', j.id);
      EnqueueKeepsBooks(s', j);
      EnqueueElse(s', j);
      assert jobs == jobs[..n] + [j];
      JobSetGrows(Outstanding(s), jobs[..n], j);
    }
  }

  /** Queueing touches nothing else. */
  ghost predicate SameElse(s: State, s': State) {
    && s'.ls == s.ls && s'.locked == s.locked && s'.inflight == s.inflight && s'.pendingAdds == s.pendingAdds
    && s'.arrived == s.arrived && s'.sent == s.sent && s'.failed == s.failed
  }

  lemma {:induction false} EnqueueElse(s: State, j: Job)
    ensures SameElse(s, Enqueue(s, j)) && Enqueue(s, j).done == s.done
  {
  }

  ghost predicate UpperScheduleOk(s: State, level: nat, cs: seq<Choice>) {
    && ChoicesOk(s.ls, level, cs) && Searchable(cs)
    && forall c | c in cs :: NewId(s, c.id)
  }

  lemma {:induction false} ScheduleUpperKeepsInv(s: State, level: nat, cs: seq<Choice>, maxL0: int, u: iset<Bytes>)
    requires Inv(s, maxL0, u) && UpperScheduleOk(s, level, cs)
    ensures Inv(ScheduleUpper(s, level, cs), maxL0, u)
  {
    hide Core, Books, L0Ok, AddsOk, Outstanding, BuildJobs, EnqueueAll, Resize, Searchable;
    var ls, preserve := Resize(s.ls, level + 2), |s.ls| - 1 > level + 1;
    ResizeKeepsCore(s.ls, level + 2, Outstanding(s), s.locked, u);
    BuildKeepsCore(ls, Outstanding(s), s.locked, level, cs, preserve, u);
    var b := BuildJobs(ls, s.locked, level, cs, preserve);
    var s1 := s.(ls := ls, locked := b.locked);
    SameBooks(s, s1, "");
    forall i | 0 <= i < |b.jobs| ensures NewId(s1, b.jobs[i].id) {
      assert b.jobs[i] in b.jobs;
      SameBooks(s, s1, b.jobs[i].id);
    }
    EnqueueAllKeepsBooks(s1, b.jobs);
    AddsUnchanged(s, EnqueueAll(s1, b.jobs), maxL0, u);
  }

  /** The level 0 side depends on the level 0 fields and on what the levels hold. */
  lemma {:induction false} AddsUnchanged(s: State, s': State, maxL0: int, u: iset<Bytes>)
    requires L0Ok(s, maxL0) && AddsOk(s, u) && forall l: nat :: TablesAt(s'.ls, l) == TablesAt(s.ls, l)
    requires s'.inflight == s.inflight && s'.pendingAdds == s.pendingAdds
    requires s'.arrived == s.arrived && s'.sent == s.sent && s'.failed == s.failed
    ensures L0Ok(s', maxL0) && AddsOk(s', u)
  {
    hide WellFormed;
  }

  ghost predicate ZeroScheduleOk(s: State, source: Tables, lo: Bytes, hi: Bytes, id: JobID) {
    && source != [] && source == Reverse(TablesAt(s.ls, 0))
    && CanIncrement(hi) && IsRange(source, lo, hi) && NewId(s, id)
  }

  lemma {:induction false} ZeroJobOk(ls: Levels, source: Tables, lo: Bytes, hi: Bytes, id: JobID, preserve: bool,
                                     u: iset<Bytes>)
    requires LevelsSound(ls, u) && source != [] && source == Reverse(TablesAt(ls, 0))
    requires CanIncrement(hi) && IsRange(source, lo, hi)
    ensures JobOk(ZeroJob(ls, source, lo, hi, id, preserve), ls, u)
    ensures forall t | t in TablesAt(ls, 0) :: t in source
  {
    hide AllFlatOk, UniqueIds, PrefixFree, JobOk, Overlapping, TablesAt, NewestFirst, Reverse;
    ReverseMembers(TablesAt(ls, 0));
    var a :| a in source && HasBounds(a) && Lo(a) == lo;
    var b :| b in source && HasBounds(b) && Hi(b) == hi;
    WellFormedAt(ls, 0, a, u);
    WellFormedAt(ls, 0, b, u);
    assert Inside(a, lo, hi);
    RankOrderAll();
    ZeroNewestFirst(ls, ZeroJob(ls, source, lo, hi, id, preserve));
    SearchedJobOk(ZeroJob(ls, source, lo, hi, id, preserve), ls, lo, hi, u);
  }

  lemma {:induction false} ZeroNewestFirst(ls: Levels, j: Job)
    requires j.source == Reverse(TablesAt(ls, 0))
    ensures NewestFirst(j, ls)
  {
    ReverseAt(TablesAt(ls, 0));
  }

  lemma {:induction false} ScheduleZeroKeepsInv(s: State, source: Tables, lo: Bytes, hi: Bytes, id: JobID, maxL0: int,
                                                u: iset<Bytes>)
    requires Inv(s, maxL0, u) && ZeroScheduleOk(s, source, lo, hi, id)
    ensures Inv(ScheduleZero(s, source, lo, hi, id), maxL0, u)
  {
    hide Core, Books, L0Ok, AddsOk, Outstanding, Resize, IsRange, TablesAt, Enqueue, JobOk, Unlocked, LockIds, Reverse;
    var ls := Resize(s.ls, 2);
    ResizeKeepsCore(s.ls, 2, Outstanding(s), s.locked, u);
    CoreParts(ls, Outstanding(s), s.locked, u);
    var j := ZeroJob(ls, source, lo, hi, id, |s.ls| - 1 > 1);
    ZeroJobOk(ls, source, lo, hi, id, |s.ls| - 1 > 1, u);
    SameBooks(s, s.(ls := ls), "");
    if Unlocked(j, s.locked) {
      var s1 := s.(ls := ls, locked := s.locked + LockIds(j));
      SameBooks(s, s1, id);
      AddJobKeepsCore(ls, Outstanding(s), s.locked, j, u);
      EnqueueKeepsBooks(s1, j);
      EnqueueElse(s1, j);
    }
    AddsUnchanged(s, ScheduleZero(s, source, lo, hi, id), maxL0, u);
  }

  // ----- the other steps keep the invariant

  lemma {:induction false} PollKeepsInv(s: State, connection: nat, maxL0: int, u: iset<Bytes>)
    requires Inv(s, maxL0, u)
    ensures Inv(Poll(s, connection), maxL0, u)
  {
    hide Core, Books, L0Ok, AddsOk, Outstanding;
    PollKeepsBooks(s, connection);
    AddsUnchanged(s, Poll(s, connection), maxL0, u);
  }

  lemma {:induction false} PollTimeoutKeepsInv(s: State, i: nat, maxL0: int, u: iset<Bytes>)
    requires Inv(s, maxL0, u)
    ensures Inv(PollTimeout(s, i), maxL0, u)
  {
    hide Core, L0Ok, AddsOk;
    var s' := PollTimeout(s, i);
    assert Outstanding(s') == Outstanding(s);
    AddsUnchanged(s, s', maxL0, u);
  }

  lemma {:induction false} CancelKeepsInv(s: State, id: JobID, maxL0: int, u: iset<Bytes>)
    requires Inv(s, maxL0, u)
    ensures Inv(Cancel(s, id), maxL0, u)
  {
    hide Core, Books, L0Ok, AddsOk, Outstanding, Enqueue;
    CancelKeepsBooks(s, id);
    if id in s.inProgress { EnqueueElse(Leave(s, id).(timedOut := s.timedOut + 1), s.inProgress[id].job); }
    AddsUnchanged(s, Cancel(s, id), maxL0, u);
  }

  /** A table id that nothing uses yet. */
  ghost predicate UnusedId(s: State, id: TableID) {
    FreshId(id, s.ls) && forall t | t in s.inflight + s.pendingAdds :: t.id != id
  }

  ghost predicate FinishOk(s: State, id: JobID, outs: Tables, u: iset<Bytes>) {
    id in s.inProgress ==>
      && OutputOk(s.inProgress[id].job, outs, s.ls, u)
      && forall t | t in outs :: UnusedId(s, t.id) || t in s.inProgress[id].job.source
  }

  lemma {:induction false} AppliedZeroShrinks(ls: Levels, j: Job, outs: Tables, u: iset<Bytes>)
    requires LevelsSound(ls, u) && JobOk(j, ls, u) && OutputOk(j, outs, ls, u)
    ensures |TablesAt(Applied(ls, j, outs), 0)| <= |TablesAt(ls, 0)|
  {
    hide AllFlatOk, DeregisterAll, RegisterAll, Keys, SingleSource, WellFormed, Fits, Within, Ascending, TablesAt;
    hide JobDeregs;
    var ls', dest := DeregisterAll(ls, JobDeregs(j)), j.levelFrom + 1;
    forall i | 0 <= i < |outs| ensures WellFormed(outs[i], u) && Fits(TablesAt(ls', dest), outs[i]) {
      assert outs[i] in outs;
      OutputFits(ls, j, outs, outs[i], u);
    }
    RegisterDisjoint(ls', dest, outs, u);
    assert TablesAt(Applied(ls, j, outs), 0) == TablesAt(ls', 0);
    DeregisterShrinks(ls, JobDeregs(j), 0);
  }

  lemma {:induction false} DeregisterShrinks(ls: Levels, deregs: seq<LevelDeReg>, l: nat)
    ensures |TablesAt(DeregisterAll(ls, deregs), l)| <= |TablesAt(ls, l)|
  {
    if deregs != [] {
      var n := |deregs| - 1;
      DeregisterShrinks(ls, deregs[..n], l);
      var ls', d := DeregisterAll(ls, deregs[..n]), deregs[n];
      SetLevelAt(ls', d.level, RemoveTable(TablesAt(ls', d.level), d.dereg.id), l);
    }
  }

  /** Sending the adds that now have room uses the room up or empties the line. */
  lemma {:induction false} DispatchKeepsL0(s: State, maxL0: int)
    requires |TablesAt(s.ls, 0)| + |s.inflight| <= maxL0 && (!s.failed ==> s.arrived == s.sent + s.pendingAdds)
    ensures L0Ok(DispatchAdds(s, maxL0), maxL0)
    ensures DispatchAdds(s, maxL0).inflight + DispatchAdds(s, maxL0).pendingAdds == s.inflight + s.pendingAdds
  {
    var s' := DispatchAdds(s, maxL0);
    var n := |s'.inflight| - |s.inflight|;
    assert s.pendingAdds == s.pendingAdds[..n] + s.pendingAdds[n..];
    assert s.sent + s.pendingAdds[..n] + s.pendingAdds[n..] == s.sent + s.pendingAdds;
    assert s.inflight + s.pendingAdds[..n] + s.pendingAdds[n..] == s.inflight + s.pendingAdds;
  }

  lemma {:induction false} ApplyCompactionKeepsInv(s: State, id: JobID, outs: Tables, maxL0: int, u: iset<Bytes>)
    requires Inv(s, maxL0, u) && FinishOk(s, id, outs, u)
    ensures Inv(ApplyCompaction(s, id, outs, maxL0), maxL0, u)
  {
    hide Core, Books, Outstanding, AddsOk, OutputOk, LockIds, JobOk, LevelsSound;
    if id in s.inProgress {
      var j := s.inProgress[id].job;
      CompleteKeepsBooks(s, id);
      CoreParts(s.ls, Outstanding(s), s.locked, u);
      ApplyKeepsCore(s.ls, Outstanding(s), s.locked, j, outs, u);
      AppliedZeroShrinks(s.ls, j, outs, u);
      var s1 := Complete(s, id).(ls := Applied(s.ls, j, outs));
      DispatchKeepsL0(s1, maxL0);
      var s2 := DispatchAdds(s1, maxL0);
      SameBooks(Complete(s, id), s2, "");
      AddsAfterApply(s, j, outs, s2, u);
    }
  }

  lemma {:induction false} AddsAfterApply(s: State, j: Job, outs: Tables, s': State, u: iset<Bytes>)
    requires AddsOk(s, u) && LevelsSound(s.ls, u) && JobOk(j, s.ls, u) && OutputOk(j, outs, s.ls, u)
    requires forall t | t in outs :: UnusedId(s, t.id) || t in j.source
    requires s'.inflight + s'.pendingAdds == s.inflight + s.pendingAdds && s'.ls == Applied(s.ls, j, outs)
    ensures AddsOk(s', u)
  {
    hide LevelsSound, OutputOk, WellFormed, DistinctIds, TablesAt, Applied, HoldsOverlap, SingleSource, Keys;
    SoundKeys(s.ls, u);
    forall t, l: nat, x | t in s.inflight + s.pendingAdds && x in TablesAt(s'.ls, l) ensures x.id != t.id {
      AppliedAt(s.ls, j, outs, x, l, u);
      JobSourceAt(j, s.ls, u, x);
    }
  }

  lemma {:induction false} JobSourceAt(j: Job, ls: Levels, u: iset<Bytes>, x: TableEntry)
    requires Keys(u) && JobOk(j, ls, u)
    ensures x in j.source ==> x in TablesAt(ls, j.levelFrom)
  {
  }

  ghost predicate RegisterOk(s: State, t: TableEntry, u: iset<Bytes>) { WellFormed(t, u) && UnusedId(s, t.id) }

  lemma {:induction false} RegisterL0KeepsInv(s: State, t: TableEntry, maxL0: int, u: iset<Bytes>)
    requires Inv(s, maxL0, u) && RegisterOk(s, t, u)
    ensures Inv(RegisterL0(s, t, maxL0), maxL0, u)
  {
    hide Core, Books, WellFormed, FreshId, TablesAt, Outstanding;
    var s' := RegisterL0(s, t, maxL0);
    SameBooks(s, s', "");
    assert Outstanding(s') == Outstanding(s);
    assert s.sent + s.pendingAdds + [t] == s.sent + (s.pendingAdds + [t]);
    AddsGrow(s, s', t, u);
  }

  lemma {:induction false} AddsGrow(s: State, s': State, t: TableEntry, u: iset<Bytes>)
    requires AddsOk(s, u) && RegisterOk(s, t, u) && s'.ls == s.ls
    requires (s'.inflight == s.inflight + [t] && s'.pendingAdds == s.pendingAdds)
             || (s'.inflight == s.inflight && s'.pendingAdds == s.pendingAdds + [t])
    ensures AddsOk(s', u)
  {
    hide WellFormed, FreshId;
    var a, b := s.inflight, s.pendingAdds;
    var adds, adds' := a + b, s'.inflight + s'.pendingAdds;
    assert adds' == a + [t] + b || adds' == adds + [t];
    forall x | x in adds' ensures x in adds || x == t {}
    assert forall i | 0 <= i < |adds| :: adds[i] in adds;
    if adds' == a + [t] + b {
      forall i, k | 0 <= i < k < |adds'| ensures adds'[i].id != adds'[k].id {
        var i', k' := if i < |a| then i else i - 1, if k < |a| then k else k - 1;
        assert (i == |a| || adds'[i] == adds[i']) && (k == |a| || adds'[k] == adds[k']);
      }
    }
  }

  lemma {:induction false} TakeAdd(s: State, i: nat, u: iset<Bytes>)
    requires AddsOk(s, u) && i < |s.inflight|
    ensures var rest := s.inflight[..i] + s.inflight[i + 1..] + s.pendingAdds;
            DistinctIds(rest)
            && (forall t | t in rest :: WellFormed(t, u) && FreshId(t.id, s.ls) && t.id != s.inflight[i].id)
    ensures WellFormed(s.inflight[i], u) && FreshId(s.inflight[i].id, s.ls)
  {
    hide WellFormed, FreshId;
    var adds := s.inflight + s.pendingAdds;
    var rest := s.inflight[..i] + s.inflight[i + 1..] + s.pendingAdds;
    assert forall k | 0 <= k < |rest| :: rest[k] == adds[if k < i then k else k + 1];
    assert adds[i] == s.inflight[i] && adds[i] in adds;
    forall t | t in rest ensures t in adds && t.id != s.inflight[i].id {
      var k :| 0 <= k < |rest| && rest[k] == t;
      assert adds[if k < i then k else k + 1] == t;
    }
  }

  lemma {:induction false} ApplyL0KeepsInv(s: State, i: nat, maxL0: int, u: iset<Bytes>)
    requires Inv(s, maxL0, u)
    ensures Inv(ApplyL0(s, i), maxL0, u)
  {
    hide Core, Books, WellFormed, Outstanding, AddsOk, DistinctIds;
    if i < |s.inflight| {
      var s', t := ApplyL0(s, i), s.inflight[i];
      SameBooks(s, s', "");
      TakeAdd(s, i, u);
      RegisterZeroKeepsCore(s.ls, Outstanding(s), s.locked, t, u);
      SetLevelAt(s.ls, 0, AddTo(0, TablesAt(s.ls, 0), t), 0);
      TakenAddsOk(s', u);
    }
  }

  lemma {:induction false} TakenAddsOk(s: State, u: iset<Bytes>)
    requires var rest := s.inflight + s.pendingAdds;
             DistinctIds(rest) && forall t | t in rest :: WellFormed(t, u) && FreshId(t.id, s.ls)
    ensures AddsOk(s, u)
  {
  }

  lemma {:induction false} FailL0KeepsInv(s: State, i: nat, maxL0: int, u: iset<Bytes>)
    requires Inv(s, maxL0, u)
    ensures Inv(FailL0(s, i), maxL0, u)
  {
    hide Core, Books, WellFormed, Outstanding, AddsOk, DistinctIds, FreshId;
    if i < |s.inflight| {
      var s' := FailL0(s, i);
      SameBooks(s, s', "");
      TakeAdd(s, i, u);
      TakenAddsOk(s', u);
    }
  }

  // ----- runs

  datatype Event =
    | Polled(connection: nat)
    | PollTimedOut(index: nat)
    | Cancelled(id: JobID)
    | Finished(id: JobID, outs: Tables)
    | Registered(table: TableEntry)
    | Replicated(index: nat)
    | ReplicationFailed(index: nat)
    | ScheduledUpper(level: nat, choices: seq<Choice>)
    | ScheduledZero(source: Tables, lo: Bytes, hi: Bytes, id: JobID)

  /** What the environment promises: sound worker output, new ids, and tables the level really has. */
  ghost predicate EventOk(s: State, e: Event, u: iset<Bytes>) {
    match e
    case Finished(id, outs) => FinishOk(s, id, outs, u)
    case Registered(t) => RegisterOk(s, t, u)
    case ScheduledUpper(level, cs) => UpperScheduleOk(s, level, cs)
    case ScheduledZero(source, lo, hi, id) => ZeroScheduleOk(s, source, lo, hi, id)
    case _ => true
  }

  ghost function Step(s: State, e: Event, maxL0: int, u: iset<Bytes>): State
    requires EventOk(s, e, u)
  {
    match e
    case Polled(c) => Poll(s, c)
    case PollTimedOut(i) => PollTimeout(s, i)
    case Cancelled(id) => Cancel(s, id)
    case Finished(id, outs) => ApplyCompaction(s, id, outs, maxL0)
    case Registered(t) => RegisterL0(s, t, maxL0)
    case Replicated(i) => ApplyL0(s, i)
    case ReplicationFailed(i) => FailL0(s, i)
    case ScheduledUpper(level, cs) => ScheduleUpper(s, level, cs)
    case ScheduledZero(source, lo, hi, id) => ScheduleZero(s, source, lo, hi, id)
  }

  /** A run: states linked by events the environment may produce. */
  ghost predicate IsRun(states: seq<State>, events: seq<Event>, maxL0: int, u: iset<Bytes>) {
    && |states| == |events| + 1 && states[0] == Start()
    && forall i | 0 <= i < |events| ::
         EventOk(states[i], events[i], u) && states[i + 1] == Step(states[i], events[i], maxL0, u)
  }

  function Start(): State {
    State([], [], map[], {}, map[], [], 0, 0, 0, 0, [], [], {}, [], [], false)
  }

  lemma {:induction false} StepKeepsInv(s: State, e: Event, maxL0: int, u: iset<Bytes>)
    requires Inv(s, maxL0, u) && EventOk(s, e, u)
    ensures Inv(Step(s, e, maxL0, u), maxL0, u)
  {
    hide Inv;
    match e
    case Polled(c) => PollKeepsInv(s, c, maxL0, u);
    case PollTimedOut(i) => PollTimeoutKeepsInv(s, i, maxL0, u);
    case Cancelled(id) => CancelKeepsInv(s, id, maxL0, u);
    case Finished(id, outs) => ApplyCompactionKeepsInv(s, id, outs, maxL0, u);
    case Registered(t) => RegisterL0KeepsInv(s, t, maxL0, u);
    case Replicated(i) => ApplyL0KeepsInv(s, i, maxL0, u);
    case ReplicationFailed(i) => FailL0KeepsInv(s, i, maxL0, u);
    case ScheduledUpper(level, cs) => ScheduleUpperKeepsInv(s, level, cs, maxL0, u);
    case ScheduledZero(source, lo, hi, id) => ScheduleZeroKeepsInv(s, source, lo, hi, id, maxL0, u);
  }

  lemma {:induction false} StartInv(maxL0: int, u: iset<Bytes>)
    requires Keys(u) && maxL0 >= 0
    ensures Inv(Start(), maxL0, u)
  {
    var s := Start();
    assert Outstanding(s) == {};
    forall l: nat ensures From(Outstanding(s), l) == {} {}
  }

  lemma {:induction false} RunKeepsInv(states: seq<State>, events: seq<Event>, maxL0: int, u: iset<Bytes>, k: nat)
    requires Keys(u) && maxL0 >= 0 && IsRun(states, events, maxL0, u) && k < |states|
    ensures Inv(states[k], maxL0, u)
  {
    hide Inv, EventOk, Step;
    if k == 0 {
      StartInv(maxL0, u);
    } else {
      RunKeepsInv(states, events, maxL0, u, k - 1);
      StepKeepsInv(states[k - 1], events[k - 1], maxL0, u);
    }
  }

  /**
   Whatever jobs are outstanding and whenever they are dispatched, cancelled and applied, the tables
   of every level above 0 are in key order and disjoint on unversioned keys in every reachable state.
   */
  lemma {:induction false} LevelsStayDisjoint(states: seq<State>, events: seq<Event>, maxL0: int, u: iset<Bytes>,
                                              k: nat, l: nat)
    requires Keys(u) && maxL0 >= 0 && IsRun(states, events, maxL0, u) && k < |states| && l > 0
    ensures Ascending(TablesAt(states[k].ls, l)) && DistinctIds(TablesAt(states[k].ls, l))
  {
    hide IsRun, Books, L0Ok, AddsOk, WellFormed, Precedes;
    RunKeepsInv(states, events, maxL0, u, k);
  }

  /** And no finished job is ever refused for an overlap: its batch fits the levels as they are then. */
  lemma {:induction false} FinishedJobsFit(states: seq<State>, events: seq<Event>, maxL0: int, u: iset<Bytes>, k: nat)
    requires Keys(u) && maxL0 >= 0 && IsRun(states, events, maxL0, u) && k < |events|
    requires events[k].Finished? && events[k].id in states[k].inProgress
    ensures var s, j := states[k], states[k].inProgress[events[k].id].job;
            RegsFit(DeregisterAll(s.ls, JobDeregs(j)), JobRegs(j, events[k].outs), u) && DeregsName(s.ls, JobDeregs(j))
  {
    hide Books, L0Ok, AddsOk, RegsFit, OutputOk, JobOk, LevelsSound, Step, DeregsName;
    RunKeepsInv(states, events, maxL0, u, k);
    var s, j := states[k], states[k].inProgress[events[k].id].job;
    assert FinishOk(s, events[k].id, events[k].outs, u);
    assert j in Outstanding(s);
    JobBatchFits(s.ls, j, events[k].outs, u);
  }

  /** Outstanding jobs hold different tables, and their key ranges into a level do not meet. */
  lemma {:induction false} JobsStayApart(states: seq<State>, events: seq<Event>, maxL0: int, u: iset<Bytes>, k: nat,
                                         i: Job, j: Job)
    requires Keys(u) && maxL0 >= 0 && IsRun(states, events, maxL0, u) && k < |states|
    requires i in Outstanding(states[k]) && j in Outstanding(states[k]) && i != j
    ensures NoSharedIds(i, j) && (i.levelFrom == j.levelFrom ==> JobsApart(i, j))
  {
    hide IsRun, Books, L0Ok, AddsOk, JobOk, LevelsSound;
    RunKeepsInv(states, events, maxL0, u, k);
    assert PairOk(i, j);
  }

  // ----- at most once

  lemma {:induction false} EnqueueAllDone(s: State, jobs: seq<Job>)
    ensures EnqueueAll(s, jobs).done == s.done
  {
    if jobs != [] { EnqueueAllDone(s, jobs[..|jobs| - 1]); }
  }

  lemma {:induction false} DoneGrows(s: State, e: Event, maxL0: int, u: iset<Bytes>)
    requires EventOk(s, e, u)
    ensures s.done <= Step(s, e, maxL0, u).done
    ensures e.Finished? && e.id in s.inProgress ==> e.id in Step(s, e, maxL0, u).done
  {
    hide EventOk, BuildJobs, EnqueueAll, ZeroJob, Applied, RegisterIn;
    if e.ScheduledUpper? {
      assert Searchable(e.choices) by { UpperSearchable(s, e, u); }
      var ls := Resize(s.ls, e.level + 2);
      var b := BuildJobs(ls, s.locked, e.level, e.choices, |s.ls| - 1 > e.level + 1);
      EnqueueAllDone(s.(ls := ls, locked := b.locked), b.jobs);
    }
  }

  lemma {:induction false} UpperSearchable(s: State, e: Event, u: iset<Bytes>)
    requires e.ScheduledUpper? && EventOk(s, e, u)
    ensures Searchable(e.choices)
  {
  }

  lemma {:induction false} DoneStays(states: seq<State>, events: seq<Event>, maxL0: int, u: iset<Bytes>, k: nat, m: nat)
    requires IsRun(states, events, maxL0, u) && k <= m < |states|
    ensures states[k].done <= states[m].done
  {
    hide Step, EventOk;
    if k < m {
      DoneStays(states, events, maxL0, u, k, m - 1);
      DoneGrows(states[m - 1], events[m - 1], maxL0, u);
    }
  }

  /** A job is applied at most once: every later attempt, by any worker, is refused. */
  lemma {:induction false} AppliedAtMostOnce(states: seq<State>, events: seq<Event>, maxL0: int, u: iset<Bytes>, k: nat,
                                             m: nat)
    requires Keys(u) && maxL0 >= 0 && IsRun(states, events, maxL0, u) && k < m < |events|
    requires events[k].Finished? && events[k].id in states[k].inProgress
    requires events[m].Finished? && events[m].id == events[k].id
    ensures events[m].id !in states[m].inProgress && states[m + 1] == states[m]
  {
    hide Core, L0Ok, AddsOk, Step, EventOk;
    var id := events[k].id;
    DoneGrows(states[k], events[k], maxL0, u);
    DoneStays(states, events, maxL0, u, k + 1, m);
    RunKeepsInv(states, events, maxL0, u, m);
    if id in states[m].inProgress { OutstandingIs(states[m], states[m].inProgress[id].job); }
    RefusedChangesNothing(states[m], events[m], maxL0, u);
  }

  lemma {:induction false} RefusedChangesNothing(s: State, e: Event, maxL0: int, u: iset<Bytes>)
    requires e.Finished? && EventOk(s, e, u) && e.id !in s.inProgress
    ensures Step(s, e, maxL0, u) == s
  {
  }

  /** Level 0 never outgrows its bound, and without failed replication adds are sent in order of arrival. */
  lemma {:induction false} LevelZeroBounded(states: seq<State>, events: seq<Event>, maxL0: int, u: iset<Bytes>, k: nat)
    requires Keys(u) && maxL0 >= 0 && IsRun(states, events, maxL0, u) && k < |states|
    ensures |TablesAt(states[k].ls, 0)| + |states[k].inflight| <= maxL0
    ensures (forall i | 0 <= i < k :: !events[i].ReplicationFailed?) ==>
              states[k].sent <= states[k].arrived && states[k].sent + states[k].pendingAdds == states[k].arrived
              && (states[k].pendingAdds != [] ==> FreeSpace(states[k], maxL0) <= 0)
  {
    hide Core, Books, AddsOk, Step, EventOk;
    RunKeepsInv(states, events, maxL0, u, k);
    if forall i | 0 <= i < k :: !events[i].ReplicationFailed? { NotFailed(states, events, maxL0, u, k); }
  }

  lemma {:induction false} NotFailed(states: seq<State>, events: seq<Event>, maxL0: int, u: iset<Bytes>, k: nat)
    requires IsRun(states, events, maxL0, u) && k < |states|
    requires forall i | 0 <= i < k :: !events[i].ReplicationFailed?
    ensures !states[k].failed
  {
    hide Step, EventOk;
    if k > 0 {
      NotFailed(states, events, maxL0, u, k - 1);
      OnlyReplicationFails(states[k - 1], events[k - 1], maxL0, u);
    }
  }

  lemma {:induction false} OnlyReplicationFails(s: State, e: Event, maxL0: int, u: iset<Bytes>)
    requires EventOk(s, e, u) && !e.ReplicationFailed? && !s.failed
    ensures !Step(s, e, maxL0, u).failed
  {
    hide EventOk, BuildJobs, EnqueueAll, ZeroJob, Applied, RegisterIn;
    if e.ScheduledUpper? {
      UpperSearchable(s, e, u);
      var ls := Resize(s.ls, e.level + 2);
      var b := BuildJobs(ls, s.locked, e.level, e.choices, |s.ls| - 1 > e.level + 1);
      EnqueueAllElse(s.(ls := ls, locked := b.locked), b.jobs);
    }
  }

  lemma {:induction false} EnqueueAllElse(s: State, jobs: seq<Job>)
    ensures SameElse(s, EnqueueAll(s, jobs))
  {
    if jobs != [] { EnqueueAllElse(s, jobs[..|jobs| - 1]); }
  }
}
