/**
 levels/compaction.go, levels/level_manager.go: the level manager itself, with its fields and methods
 as the source has them. Each method is proved to take the step the state machine describes, so
 every run of these methods is a run of that machine.
 */
module LevelManagers {
  import opened Bytes
  import opened KeyEncoding
  import opened LevelSpec
  import opened LevelIndex
  import opened MasterRecord
  import opened CompactionSpec
  import opened CompactionQueue
  import opened CompactionDrops

  class LevelManager {
    const l0MaxTables: int
    const index: MasterRecord
    var jobQueue: seq<Job>
    var inProgress: map<JobID, Running>
    var lockedTables: set<TableID>
    var pendingCompactions: map<nat, int>
    var pollers: seq<nat>
    var queuedJobs: int
    var inProgressJobs: int
    var completedJobs: int
    var timedOutJobs: int
    var inflightAdds: int
    var pendingAddsQueue: seq<TableEntry>
    // level 0 registrations handed to replication, finished job ids, and the order of adds
    ghost var inflight: seq<TableEntry>
    ghost var done: set<JobID>
    ghost var arrived: seq<TableEntry>
    ghost var sent: seq<TableEntry>
    ghost var failed: bool

    ghost function Abs(): State
      reads this, index
    {
      State(View(index.levels), jobQueue, inProgress, lockedTables, pendingCompactions, pollers,
            queuedJobs, inProgressJobs, completedJobs, timedOutJobs, inflight, pendingAddsQueue,
            done, arrived, sent, failed)
    }

    /** The index is sound and the counter of adds in flight is right. */
    ghost predicate Rep()
      reads this, index
    {
      index.Valid() && Keys(index.u) && inflightAdds == |inflight|
    }

    ghost predicate Valid()
      reads this, index
    {
      Rep() && Inv(Abs(), l0MaxTables, index.u)
    }

    constructor (index: MasterRecord, l0MaxTables: int)
      requires index.Valid() && Keys(index.u) && index.levels == [] && l0MaxTables >= 0
      ensures Valid() && this.index == index && this.l0MaxTables == l0MaxTables && Abs() == Start()
    {
      this.index, this.l0MaxTables := index, l0MaxTables;
      jobQueue, inProgress, lockedTables, pendingCompactions, pollers := [], map[], {}, map[], [];
      queuedJobs, inProgressJobs, completedJobs, timedOutJobs := 0, 0, 0, 0;
      inflightAdds, pendingAddsQueue, inflight := 0, [], [];
      done, arrived, sent, failed := {}, [], [], false;
      new;
      assert Abs() == Start();
      StartInv(l0MaxTables, index.u);
    }

    // ----- jobs

    method QueueOrDespatchJob(job: Job)
      requires Rep()
      modifies this
      ensures Rep() && Abs() == Enqueue(old(Abs()), job)
    {
      hide Inv, View, Keys, LevelsOk, CountsOk, PrefixFree;
      if |pollers| > 0 {
        inProgressJobs := inProgressJobs + 1;
        var connection := pollers[|pollers| - 1];
        pollers := pollers[..|pollers| - 1];
        inProgress := inProgress[job.id := Running(job, connection)];
      } else {
        jobQueue := jobQueue + [job];
        queuedJobs := queuedJobs + 1;
      }
      pendingCompactions := pendingCompactions[job.levelFrom := CountOf(pendingCompactions, job.levelFrom) + 1];
    }

    method LockTablesForJob(job: Job)
      modifies this`lockedTables
      ensures lockedTables == old(lockedTables) + LockIds(job)
    {
      var ts := Members(job);
      for i := 0 to |ts|
        invariant lockedTables == old(lockedTables) + set t | t in ts[..i] :: t.id
      {
        assert ts[..i + 1] == ts[..i] + [ts[i]];
        lockedTables := lockedTables + {ts[i].id};
      }
      assert ts[..|ts|] == ts;
    }

    method UnlockTablesForJob(job: Job)
      modifies this`lockedTables
      ensures lockedTables == old(lockedTables) - LockIds(job)
    {
      var ts := Members(job);
      for i := 0 to |ts|
        invariant lockedTables == old(lockedTables) - set t | t in ts[..i] :: t.id
      {
        assert ts[..i + 1] == ts[..i] + [ts[i]];
        lockedTables := lockedTables - {ts[i].id};
      }
      assert ts[..|ts|] == ts;
    }

    method PollForJob(connection: nat) returns (job: Option<Job>)
      requires Valid()
      modifies this
      ensures Valid() && Abs() == Poll(old(Abs()), connection)
      ensures job == if old(jobQueue) == [] then None else Some(old(jobQueue)[0])
    {
      hide Inv, View, Keys, LevelsOk, CountsOk, PrefixFree;
      PollKeepsInv(Abs(), connection, l0MaxTables, index.u);
      if |jobQueue| > 0 {
        var j := jobQueue[0];
        jobQueue := jobQueue[1..];
        queuedJobs := queuedJobs - 1;
        inProgress := inProgress[j.id := Running(j, connection)];
        inProgressJobs := inProgressJobs + 1;
        return Some(j);
      }
      pollers := pollers + [connection];
      return None;
    }

    method PollerTimedOut(i: nat)
      requires Valid() && i < |pollers|
      modifies this
      ensures Valid() && Abs() == PollTimeout(old(Abs()), i)
    {
      PollTimeoutKeepsInv(Abs(), i, l0MaxTables, index.u);
      pollers := pollers[..i] + pollers[i + 1..];
    }

    method CancelInProgressJob(id: JobID)
      requires Valid()
      modifies this
      ensures Valid() && Abs() == Cancel(old(Abs()), id)
    {
      hide Inv, View, Keys, LevelsOk, CountsOk, PrefixFree, Enqueue;
      CancelKeepsInv(Abs(), id, l0MaxTables, index.u);
      if id !in inProgress { return; }
      var job := inProgress[id].job;
      inProgress := inProgress - {id};
      pendingCompactions := pendingCompactions[job.levelFrom := CountOf(pendingCompactions, job.levelFrom) - 1];
      inProgressJobs := inProgressJobs - 1;
      timedOutJobs := timedOutJobs + 1;
      QueueOrDespatchJob(job);
    }

    /**
     connectionClosed visits the jobs in progress in some order and may meet a re-dispatched one again. Jobs on
     other connections are left alone. If it meets none twice, each job of the connection it visits is
     queued again or with a poller that was waiting.
     */
    method ConnectionClosed(connection: nat, order: seq<JobID>)
      requires Valid()
      modifies this
      ensures Valid() && Outstanding(Abs()) == old(Outstanding(Abs()))
      ensures lockedTables == old(lockedTables) && done == old(done)
      ensures |jobQueue| + |inProgress| == old(|jobQueue| + |inProgress|)
      ensures forall id | id in old(inProgress) && old(inProgress)[id].connection != connection ::
                id in inProgress && inProgress[id] == old(inProgress)[id]
      ensures DistinctJobs(order) ==>
                Released(old(Abs()), connection, Visited(old(inProgress), connection, order), Abs())
      ensures DistinctJobs(order) && (forall id | id in old(inProgress) :: id in order) ==>
                (On(inProgress, connection) == {} <==> connection !in Served(old(pollers), pollers))
    {
      hide Inv, Outstanding, Released;
      ghost var was := Abs();
      NoneReleased(was, connection);
      BooksOf(was, l0MaxTables, index.u);
      assert Visited(was.inProgress, connection, order[..0]) == {};
      for i := 0 to |order|
        invariant Valid() && Outstanding(Abs()) == old(Outstanding(Abs()))
        invariant lockedTables == old(lockedTables) && done == old(done)
        invariant |jobQueue| + |inProgress| == old(|jobQueue| + |inProgress|)
        invariant Spared(was, connection, Abs())
        invariant DistinctJobs(order) ==>
                    Released(was, connection, Visited(was.inProgress, connection, order[..i]), Abs())
      {
        var id := order[i];
        ghost var now := Abs();
        BooksOf(now, l0MaxTables, index.u);
        VisitOne(was, connection, order, i, now);
        if id in inProgress && inProgress[id].connection == connection {
          CancelMovesNothing(Abs(), id, l0MaxTables, index.u);
          CancelInProgressJob(id);
        }
      }
      assert order[..|order|] == order;
      BooksOf(Abs(), l0MaxTables, index.u);
      if DistinctJobs(order) && forall id | id in was.inProgress :: id in order {
        assert Visited(was.inProgress, connection, order) == On(was.inProgress, connection);
        ReleasedAll(was, connection, Abs());
      }
    }

    /** compactionComplete, up to the check for more compaction, which is a step of its own. */
    method CompactionComplete(id: JobID)
      requires Rep() && id in inProgress
      modifies this
      ensures Rep() && Abs() == Complete(old(Abs()), id)
    {
      hide Inv, View, Keys, LevelsOk, CountsOk, PrefixFree, LockIds;
      var job := inProgress[id].job;
      inProgress := inProgress - {id};
      pendingCompactions := pendingCompactions[job.levelFrom := CountOf(pendingCompactions, job.levelFrom) - 1];
      inProgressJobs := inProgressJobs - 1;
      completedJobs := completedJobs + 1;
      done := done + {id};
      UnlockTablesForJob(job);
    }

    /** applyCompactionChanges for the batch a worker built from the tables it wrote. */
    method ApplyCompactionChanges(id: JobID, job: Job, outs: Tables) returns (o: Outcome)
      requires Valid() && FinishOk(Abs(), id, outs, index.u)
      requires id in inProgress ==> job == inProgress[id].job
      modifies this, index
      ensures Valid() && Abs() == ApplyCompaction(old(Abs()), id, outs, l0MaxTables)
      ensures o == if id in old(inProgress) then Done else Failed
    {
      hide Inv, View, Keys, LevelsOk, CountsOk, PrefixFree, OutputOk, Applied, FinishOk, DispatchAdds, Complete;
      hide LockIds;
      ApplyCompactionKeepsInv(Abs(), id, outs, l0MaxTables, index.u);
      if id !in inProgress { return Failed; }
      ghost var was := Abs();
      ApplyJobBatch(id, job, outs);
      CompactionComplete(id);
      LevelsAside(was, id, Applied(was.ls, job, outs));
      MaybeDespatchPendingL0Adds();
      o := Done;
    }

    method ApplyJobBatch(ghost id: JobID, job: Job, outs: Tables)
      requires Valid() && FinishOk(Abs(), id, outs, index.u) && id in inProgress && job == inProgress[id].job
      modifies index
      ensures Rep() && Abs() == old(Abs()).(ls := Applied(old(Abs()).ls, job, outs))
    {
      hide Inv, View, Keys, LevelsOk, CountsOk, PrefixFree, OutputOk, Applied, FinishOk, JobRegs, JobDeregs;
      FinishedBatch(Abs(), id, outs, l0MaxTables, index.u);
      UnfoldApplied(Abs().ls, job, outs);
      var o := index.DoApplyChanges(JobRegs(job, outs), JobDeregs(job));
    }

    // ----- scheduling

    /** The tables of a level that a range of unversioned keys, both ends inclusive, may share keys with. */
    method SearchLevel(level: nat, lev: Level, lo: Bytes, hi: Bytes) returns (overlapping: Tables)
      requires Rep() && level < |index.levels| && lev == index.levels[level] && level > 0 && CanIncrement(hi)
      ensures overlapping == Overlapping(lo, Some(Increment(hi)), TablesAt(Abs().ls, level))
    {
      hide Inv, Keys, CountsOk, PrefixFree, Overlapping, Increment;
      overlapping := [];
      assert Abs().ls[level] == Flat(lev.segments);
      if |lev.segments| > 0 {
        var r := IncrementBytesBigEndian(hi);
        overlapping := GetOverlappingTables(lo, Some(r), level, lev.segments, index.maxEntries, index.u);
      } else {
        NoTables(lo, Some(Increment(hi)));
      }
    }

    method AnyLocked(ts: Tables) returns (locked: bool)
      ensures locked <==> exists t | t in ts :: t.id in lockedTables
    {
      for i := 0 to |ts|
        invariant forall k | 0 <= k < i :: ts[k].id !in lockedTables
      {
        if ts[i].id in lockedTables { return true; }
      }
      return false;
    }

    /** scheduleCompaction for level 0: one job for the whole level, or nothing if any table is locked. */
    method ScheduleLevelZero(tables: Tables, id: JobID) returns (jobs: nat, hasLocked: bool, ghost lo: Bytes,
                             ghost hi: Bytes)
      requires Valid() && tables != [] && tables == TablesAt(Abs().ls, 0)
      requires NewId(Abs(), id)
      modifies this, index
      ensures Valid() && IsRange(Reverse(tables), lo, hi) && CanIncrement(hi)
      ensures Abs() == ScheduleZero(old(Abs()), Reverse(tables), lo, hi, id)
      ensures jobs == if hasLocked then 0 else 1
    {
      hide Inv, View, Keys, LevelsOk, CountsOk, PrefixFree, IsRange, NewId, Resize, Enqueue, Overlapping, LockIds;
      hide TablesAt, Increment;
      ghost var was := Abs();
      var rangeStart, rangeEnd := CalculateOverallRange(tables, index.u) by {
        ZeroWellFormed(was, tables, l0MaxTables, index.u);
      }
      lo, hi := NoVersion(rangeStart), NoVersion(rangeEnd);
      RangeKeys(was, tables, lo, hi, l0MaxTables, index.u);
      ReverseAt(tables);
      ScheduleZeroKeepsInv(was, Reverse(tables), lo, hi, id, l0MaxTables, index.u);
      ViewLength(index.levels);
      var preserveTombstones := |index.levels| - 1 > 1;
      var dest := index.GetLevel(1);
      var overlapping := SearchLevel(1, dest, NoVersion(rangeStart), NoVersion(rangeEnd));
      var job := Job(id, 0, Reverse(tables), overlapping, false, preserveTombstones);
      var locked := AnyLocked(Members(job));
      if locked { return 0, true, lo, hi; }
      assert job == ZeroJob(Resize(was.ls, 2), Reverse(tables), lo, hi, id, |was.ls| - 1 > 1);
      assert Unlocked(job, was.locked);
      LockTablesForJob(job);
      assert Abs() == was.(ls := Resize(was.ls, 2), locked := was.locked + LockIds(job));
      QueueOrDespatchJob(job);
      return 1, false, lo, hi;
    }

    /** scheduleCompaction above level 0: a job of its own for each table that is free with its overlap. */
    method ScheduleUpperLevel(level: nat, choices: seq<Choice>) returns (jobs: seq<Job>, hasLocked: bool)
      requires Valid() && UpperScheduleOk(Abs(), level, choices)
      modifies this, index
      ensures Valid() && Abs() == ScheduleUpper(old(Abs()), level, choices)
      ensures hasLocked <==> |jobs| < |choices|
    {
      hide Inv, View, Keys, LevelsOk, CountsOk, PrefixFree, Resize, BuildJobs, ChoicesOk, NewId, Enqueue;
      ghost var was := Abs();
      ScheduleUpperKeepsInv(was, level, choices, l0MaxTables, index.u);
      ViewLength(index.levels);
      var preserveTombstones := |index.levels| - 1 > level + 1;
      var dest := index.GetLevel(level + 1);
      jobs, hasLocked := BuildAndLock(level, choices, dest, preserveTombstones);
      ghost var built := Abs();
      for i := 0 to |jobs|
        invariant Rep() && Abs() == EnqueueAll(built, jobs[..i])
      {
        assert jobs[..i + 1][..i] == jobs[..i];
        QueueOrDespatchJob(jobs[i]);
      }
      assert jobs[..|jobs|] == jobs;
    }

    method BuildAndLock(level: nat, choices: seq<Choice>, dest: Level, preserve: bool) returns (jobs: seq<Job>,
                        hasLocked: bool)
      requires Rep() && Searchable(choices) && level + 1 < |index.levels| && dest == index.levels[level + 1]
      modifies this`lockedTables
      ensures Rep() && Built(jobs, lockedTables) == BuildJobs(Abs().ls, old(lockedTables), level, choices, preserve)
      ensures Abs() == old(Abs()).(locked := lockedTables)
      ensures hasLocked <==> |jobs| < |choices|
    {
      hide Inv, View, Keys, LevelsOk, CountsOk, PrefixFree, Overlapping, LockIds, Increment, TablesAt, CanIncrement;
      hide NoVersion;
      jobs, hasLocked := [], false;
      ghost var ls := Abs().ls;
      ViewLength(index.levels);
      for i := 0 to |choices|
        invariant Rep() && Abs() == old(Abs()).(locked := lockedTables)
        invariant Built(jobs, lockedTables) == BuildJobs(ls, old(lockedTables), level, choices[..i], preserve)
        invariant |jobs| <= i && (hasLocked <==> |jobs| < i)
      {
        assert choices[..i + 1][..i] == choices[..i];
        var c := choices[i];
        var overlapping := SearchLevel(level + 1, dest, Lo(c.table), Hi(c.table));
        var hasDeletes := c.table.deleteRatio > 0.0;
        var move := c.unexpired && |overlapping| == 0 && (level + 1 != |index.levels| - 1 || !hasDeletes);
        var job := Job(c.id, level, [c.table], overlapping, move, preserve);
        assert job == JobFor(ls, level, c, preserve);
        var locked := AnyLocked(Members(job));
        if locked {
          hasLocked := true;
        } else {
          jobs := jobs + [job];
          LockTablesForJob(job);
        }
      }
      assert choices[..|choices|] == choices;
    }

    // ----- level 0

    method GetL0FreeSpace() returns (free: int)
      requires Rep()
      ensures free == FreeSpace(Abs(), l0MaxTables)
    {
      free := l0MaxTables - Count(index.tableCounts, 0) - inflightAdds;
    }

    method MaybeDespatchPendingL0Adds()
      requires Rep()
      modifies this
      ensures Rep() && Abs() == DispatchAdds(old(Abs()), l0MaxTables)
    {
      hide Inv, View, Keys, LevelsOk, CountsOk, PrefixFree, TablesAt;
      var freeSpace := GetL0FreeSpace();
      if freeSpace <= 0 {
        assert inflight + pendingAddsQueue[..0] == inflight && sent + pendingAddsQueue[..0] == sent;
        return;
      }
      var toDespatch := freeSpace;
      if |pendingAddsQueue| < toDespatch { toDespatch := |pendingAddsQueue|; }
      for i := 0 to toDespatch
        invariant pendingAddsQueue == old(pendingAddsQueue)
        invariant inflight == old(inflight) + pendingAddsQueue[..i] && sent == old(sent) + pendingAddsQueue[..i]
        invariant inflightAdds == |inflight|
        invariant Abs() == old(Abs()).(inflight := inflight, sent := sent)
      {
        assert pendingAddsQueue[..i + 1] == pendingAddsQueue[..i] + [pendingAddsQueue[i]];
        inflightAdds := inflightAdds + 1;
        SendApplyChangesReliably(pendingAddsQueue[i]);
      }
      pendingAddsQueue := pendingAddsQueue[toDespatch..];
    }

    /** Hands a registration to replication, from where it comes back as ApplyL0Change or L0Failed. */
    ghost method SendApplyChangesReliably(t: TableEntry)
      modifies this`inflight, this`sent
      ensures inflight == old(inflight) + [t] && sent == old(sent) + [t]
    {
      inflight, sent := inflight + [t], sent + [t];
    }

    method RegisterL0Tables(t: TableEntry)
      requires Valid() && RegisterOk(Abs(), t, index.u)
      modifies this
      ensures Valid() && Abs() == RegisterL0(old(Abs()), t, l0MaxTables)
    {
      hide Inv, View, Keys, LevelsOk, CountsOk, PrefixFree, TablesAt, RegisterOk;
      RegisterL0KeepsInv(Abs(), t, l0MaxTables, index.u);
      var free := GetL0FreeSpace();
      arrived := arrived + [t];
      if free >= 1 {
        inflightAdds := inflightAdds + 1;
        SendApplyChangesReliably(t);
        return;
      }
      pendingAddsQueue := pendingAddsQueue + [t];
    }

    /** ApplyChanges for a level 0 registration: i is its place among those in flight. */
    method ApplyL0Change(t: TableEntry, ghost i: nat) returns (o: Outcome)
      requires Valid() && i < |inflight| && inflight[i] == t
      modifies this, index
      ensures Valid() && Abs() == ApplyL0(old(Abs()), i) && o == Done
    {
      hide Inv, View, Keys, LevelsOk, CountsOk, PrefixFree, TablesAt, RegisterIn;
      ApplyL0KeepsInv(Abs(), i, l0MaxTables, index.u);
      L0BatchFits(Abs(), i, l0MaxTables, index.u);
      inflightAdds := inflightAdds - 1;
      inflight := inflight[..i] + inflight[i + 1..];
      o := index.DoApplyChanges([Reg(0, t)], []);
      OneRegistration(old(View(index.levels)), Reg(0, t));
    }

    method L0Failed(ghost i: nat)
      requires Valid() && i < |inflight|
      modifies this
      ensures Valid() && Abs() == FailL0(old(Abs()), i)
    {
      hide Inv, View, Keys, LevelsOk, CountsOk, PrefixFree;
      FailL0KeepsInv(Abs(), i, l0MaxTables, index.u);
      inflightAdds := inflightAdds - 1;
      inflight, failed := inflight[..i] + inflight[i + 1..], true;
    }
  }

  ghost predicate DistinctJobs(ids: seq<JobID>) { forall i, k | 0 <= i < k < |ids| :: ids[i] != ids[k] }

  /** The jobs of the connection that are in the list. */
  ghost function Visited(inProgress: map<JobID, Running>, connection: nat, ids: seq<JobID>): set<JobID> {
    set id | id in On(inProgress, connection) && id in ids
  }

  /** Jobs of other connections are in progress as they were. */
  ghost predicate Spared(s: State, connection: nat, s': State) {
    forall id | id in s.inProgress && s.inProgress[id].connection != connection ::
      id in s'.inProgress && s'.inProgress[id] == s.inProgress[id]
  }

  lemma {:induction false} BooksOf(s: State, maxL0: int, u: iset<Bytes>)
    requires Inv(s, maxL0, u)
    ensures Books(s)
  {
  }

  /** One more job is visited: it is made available again if it is on the connection. */
  lemma {:induction false} VisitOne(s: State, connection: nat, order: seq<JobID>, i: nat, s': State)
    requires i < |order| && Books(s') && Spared(s, connection, s')
    ensures var r := if order[i] in On(s'.inProgress, connection) then Cancel(s', order[i]) else s';
            && Spared(s, connection, r)
            && (DistinctJobs(order) && Released(s, connection, Visited(s.inProgress, connection, order[..i]), s') ==>
                  Released(s, connection, Visited(s.inProgress, connection, order[..i + 1]), r))
  {
    hide Cancel, Released, Books;
    var id := order[i];
    if id in On(s'.inProgress, connection) {
      forall x | x in s.inProgress && s.inProgress[x].connection != connection
        ensures x in Cancel(s', id).inProgress && Cancel(s', id).inProgress[x] == s.inProgress[x]
      {
        CancelSpares(s', id, x);
      }
    }
    if DistinctJobs(order) && Released(s, connection, Visited(s.inProgress, connection, order[..i]), s') {
      var now := Visited(s.inProgress, connection, order[..i]);
      VisitedGrows(s.inProgress, connection, order, i);
      StillOn(s, connection, now, s', id);
      if id in On(s.inProgress, connection) {
        ReleaseOne(s, connection, now, s', id);
      } else {
        assert now + {} == now;
      }
    }
  }

  lemma {:induction false} VisitedGrows(inProgress: map<JobID, Running>, connection: nat, order: seq<JobID>, i: nat)
    requires i < |order| && DistinctJobs(order)
    ensures var (now, id) := (Visited(inProgress, connection, order[..i]), order[i]);
            && id !in now
            && Visited(inProgress, connection, order[..i + 1])
               == now + if id in On(inProgress, connection) then {id} else {}
  {
    assert order[..i + 1] == order[..i] + [order[i]];
  }

  lemma {:induction false} StillOn(s: State, connection: nat, gone: set<JobID>, s': State, id: JobID)
    requires Released(s, connection, gone, s') && id !in gone
    ensures id in On(s'.inProgress, connection) <==> id in On(s.inProgress, connection)
  {
  }

  lemma {:induction false} CancelMovesNothing(s: State, id: JobID, maxL0: int, u: iset<Bytes>)
    requires Inv(s, maxL0, u) && id in s.inProgress
    ensures Outstanding(Cancel(s, id)) == Outstanding(s)
    ensures Cancel(s, id).locked == s.locked && Cancel(s, id).done == s.done
    ensures |Cancel(s, id).queue| + |Cancel(s, id).inProgress| == |s.queue| + |s.inProgress|
  {
    hide Core, L0Ok, AddsOk, Outstanding, From;
    CancelKeepsBooks(s, id);
    var s' := Cancel(s, id);
    assert s'.queued + s'.running == s.queued + s.running;
  }

  lemma {:induction false} FinishedBatch(s: State, id: JobID, outs: Tables, maxL0: int, u: iset<Bytes>)
    requires Inv(s, maxL0, u) && FinishOk(s, id, outs, u) && id in s.inProgress
    ensures var j := s.inProgress[id].job;
            RegsFit(DeregisterAll(s.ls, JobDeregs(j)), JobRegs(j, outs), u) && DeregsName(s.ls, JobDeregs(j))
            && (forall r | r in JobRegs(j, outs) :: RegHasKeys(r)) && (forall d | d in JobDeregs(j) :: DeRegHasKeys(d))
  {
    hide Books, L0Ok, AddsOk, OutputOk, JobOk, LevelsSound, RegsFit, DeregsName, DeRegHasKeys, JobDeregs, RegHasKeys;
    var j := s.inProgress[id].job;
    assert j in Outstanding(s);
    JobBatchFits(s.ls, j, outs, u);
    OutputHasKeys(j, outs, s.ls, u);
    forall d | d in JobDeregs(j) ensures DeRegHasKeys(d) { DeregHasKeys(s.ls, j, d, u); }
  }

  lemma {:induction false} DeregHasKeys(ls: Levels, j: Job, d: LevelDeReg, u: iset<Bytes>)
    requires LevelsSound(ls, u) && JobOk(j, ls, u) && d in JobDeregs(j)
    ensures DeRegHasKeys(d)
  {
    hide AllFlatOk, UniqueIds, HoldsOverlap, SingleSource, Keys, JobDeregs, TablesAt;
    DeregNames(j, d, ls);
    var t :| t in Members(j) && t in TablesAt(ls, d.level) && d.dereg == DeReg(t.id, t.rangeStart, t.rangeEnd);
    WellFormedAt(ls, d.level, t, u);
  }

  lemma {:induction false} UnfoldApplied(ls: Levels, j: Job, outs: Tables)
    ensures Applied(ls, j, outs) == ApplyBatch(ls, JobRegs(j, outs), JobDeregs(j))
  {
  }

  lemma {:induction false} LevelsAside(s: State, id: JobID, ls: Levels)
    requires id in s.inProgress
    ensures Complete(s.(ls := ls), id) == Complete(s, id).(ls := ls)
  {
  }

  lemma {:induction false} L0BatchFits(s: State, i: nat, maxL0: int, u: iset<Bytes>)
    requires Inv(s, maxL0, u) && i < |s.inflight|
    ensures RegsFit(DeregisterAll(s.ls, []), [Reg(0, s.inflight[i])], u) && DeregsName(s.ls, [])
    ensures forall r | r in [Reg(0, s.inflight[i])] :: RegHasKeys(r)
  {
    hide Core, Books, L0Ok;
    assert s.inflight[i] in s.inflight + s.pendingAdds;
  }

  lemma {:induction false} OneRegistration(ls: Levels, r: Reg)
    ensures ApplyBatch(ls, [r], []) == RegisterIn(ls, r)
  {
    assert [r][..0] == [];
    assert RegisterAll(ls, [r][..0]) == ls;
  }

  lemma {:induction false} ViewLength(levels: seq<Level>)
    ensures |View(levels)| == |levels|
  {
  }

  lemma {:induction false} NoTables(lo: Bytes, hi: Option<Bytes>)
    ensures Overlapping(lo, hi, Flat([])) == []
  {
  }

  /** The overall range of tables: smallest start and largest end, compared as stored. */
  method CalculateOverallRange(tables: Tables, ghost u: iset<Bytes>) returns (rangeStart: Bytes, rangeEnd: Bytes)
    requires tables != [] && PrefixFree(u) && forall t | t in tables :: WellFormed(t, u)
    ensures |rangeStart| > 8 && |rangeEnd| > 8
    ensures IsRange(tables, NoVersion(rangeStart), NoVersion(rangeEnd))
  {
    hide WellFormed, IsRange, NoVersion;
    rangeStart, rangeEnd := tables[0].rangeStart, tables[0].rangeEnd;
    ghost var a, b := tables[0], tables[0];
    assert a in tables;
    RankOrderAll();
    for i := 1 to |tables|
      invariant a in tables && b in tables && a.rangeStart == rangeStart && b.rangeEnd == rangeEnd
      invariant forall k | 0 <= k < i :: !Less(tables[k].rangeStart, rangeStart) && !Less(rangeEnd, tables[k].rangeEnd)
    {
      if Less(tables[i].rangeStart, rangeStart) { rangeStart, a := tables[i].rangeStart, tables[i]; }
      if Less(rangeEnd, tables[i].rangeEnd) { rangeEnd, b := tables[i].rangeEnd, tables[i]; }
    }
    assert WellFormed(a, u) && WellFormed(b, u);
    StoredRange(tables, a, b, u);
  }

  /** The extremes by stored key are the extremes by unversioned key. */
  lemma {:induction false} StoredRange(tables: Tables, a: TableEntry, b: TableEntry, u: iset<Bytes>)
    requires PrefixFree(u) && forall t | t in tables :: WellFormed(t, u)
    requires a in tables && b in tables
    requires forall k | 0 <= k < |tables| ::
               !Less(tables[k].rangeStart, a.rangeStart) && !Less(b.rangeEnd, tables[k].rangeEnd)
    ensures |a.rangeStart| > 8 && |b.rangeEnd| > 8 && IsRange(tables, NoVersion(a.rangeStart), NoVersion(b.rangeEnd))
  {
    hide PrefixFree, Less;
    forall t | t in tables ensures Inside(t, Lo(a), Hi(b)) {
      if Less(Lo(t), Lo(a)) { VersionedLess(t.rangeStart, a.rangeStart, u); }
      if Less(Hi(b), Hi(t)) { VersionedLess(b.rangeEnd, t.rangeEnd, u); }
    }
    assert HasBounds(a) && Lo(a) == NoVersion(a.rangeStart);
    assert HasBounds(b) && Hi(b) == NoVersion(b.rangeEnd);
  }

  lemma {:induction false} ZeroWellFormed(s: State, tables: Tables, maxL0: int, u: iset<Bytes>)
    requires Inv(s, maxL0, u) && forall t :: t in tables <==> t in TablesAt(s.ls, 0)
    ensures PrefixFree(u) && forall t | t in tables :: WellFormed(t, u)
  {
    hide Books, L0Ok, AddsOk, JobOk, PairOk, LocksOk, UniqueIds, WellFormed, TablesAt, AllFlatOk, PrefixFree;
    forall t | t in tables ensures WellFormed(t, u) { WellFormedAt(s.ls, 0, t, u); }
  }

  lemma {:induction false} RangeKeys(s: State, tables: Tables, lo: Bytes, hi: Bytes, maxL0: int, u: iset<Bytes>)
    requires Inv(s, maxL0, u) && tables != [] && (forall t :: t in tables <==> t in TablesAt(s.ls, 0))
    requires IsRange(tables, lo, hi)
    ensures CanIncrement(hi) && IsRange(Reverse(tables), lo, hi)
    ensures Reverse(tables) != [] && forall t :: t in Reverse(tables) <==> t in TablesAt(s.ls, 0)
  {
    hide Books, L0Ok, AddsOk, JobOk, PairOk, LocksOk, UniqueIds, TablesAt, AllFlatOk, PrefixFree, Less, CanIncrement;
    ReverseMembers(tables);
    var b :| b in tables && HasBounds(b) && Hi(b) == hi;
    WellFormedAt(s.ls, 0, b, u);
  }
}
