/**
 levels/level_manager.go: the master record. All levels of the index with their table counts, and the
 batches that change them: de-registrations first, then registrations, all or nothing. Seen flat, a
 batch is a function on a sequence of levels, and applying a batch a second time changes nothing.
 */
module MasterRecord {
  import opened Bytes
  import opened KeyEncoding
  import opened LevelSpec
  import opened LevelIndex

  type Levels = seq<Tables>

  datatype Reg = Reg(level: nat, table: TableEntry)

  datatype LevelDeReg = LevelDeReg(level: nat, dereg: DeReg)

  // ----- the flat view of a batch

  ghost function TablesAt(ls: Levels, l: nat): Tables { if l < |ls| then ls[l] else [] }

  /** maybeResizeLevelSegmentEntries: at least n levels. */
  ghost function Resize(ls: Levels, n: nat): Levels {
    if |ls| >= n then ls else ls + seq(n - |ls|, _ => [])
  }

  ghost function SetLevel(ls: Levels, l: nat, ts: Tables): Levels { Resize(ls, l + 1)[l := ts] }

  ghost function AddTo(l: nat, ts: Tables, t: TableEntry): Tables {
    if HasId(ts, t.id) then ts else if l == 0 then ts + [t] else InsertTable(ts, t)
  }

  ghost function RegisterIn(ls: Levels, r: Reg): Levels {
    SetLevel(ls, r.level, AddTo(r.level, TablesAt(ls, r.level), r.table))
  }

  ghost function DeregisterIn(ls: Levels, d: LevelDeReg): Levels {
    SetLevel(ls, d.level, RemoveTable(TablesAt(ls, d.level), d.dereg.id))
  }

  ghost function RegisterAll(ls: Levels, regs: seq<Reg>): Levels {
    if regs == [] then ls else RegisterIn(RegisterAll(ls, regs[..|regs| - 1]), regs[|regs| - 1])
  }

  ghost function DeregisterAll(ls: Levels, deregs: seq<LevelDeReg>): Levels {
    if deregs == [] then ls else DeregisterIn(DeregisterAll(ls, deregs[..|deregs| - 1]), deregs[|deregs| - 1])
  }

  ghost function ApplyBatch(ls: Levels, regs: seq<Reg>, deregs: seq<LevelDeReg>): Levels {
    RegisterAll(DeregisterAll(ls, deregs), regs)
  }

  /** Only these levels change. */
  lemma {:induction false} SetLevelAt(ls: Levels, l: nat, ts: Tables, k: nat)
    ensures TablesAt(SetLevel(ls, l, ts), k) == if k == l then ts else TablesAt(ls, k)
    ensures |SetLevel(ls, l, ts)| == if l < |ls| then |ls| else l + 1
  {
  }

  lemma {:induction false} RegistersElsewhere(ls: Levels, regs: seq<Reg>, l: nat)
    requires forall i | 0 <= i < |regs| :: regs[i].level != l
    ensures TablesAt(RegisterAll(ls, regs), l) == TablesAt(ls, l)
  {
    if regs != [] {
      var n := |regs| - 1;
      var ls', r := RegisterAll(ls, regs[..n]), regs[n];
      RegistersElsewhere(ls, regs[..n], l);
      SetLevelAt(ls', r.level, AddTo(r.level, TablesAt(ls', r.level), r.table), l);
    }
  }

  lemma {:induction false} DeregistersElsewhere(ls: Levels, deregs: seq<LevelDeReg>, l: nat)
    requires forall i | 0 <= i < |deregs| :: deregs[i].level != l
    ensures TablesAt(DeregisterAll(ls, deregs), l) == TablesAt(ls, l)
  {
    if deregs != [] {
      var n := |deregs| - 1;
      var ls', d := DeregisterAll(ls, deregs[..n]), deregs[n];
      DeregistersElsewhere(ls, deregs[..n], l);
      SetLevelAt(ls', d.level, RemoveTable(TablesAt(ls', d.level), d.dereg.id), l);
    }
  }

  // ----- what a batch must meet

  predicate HasKeys(start: Bytes, end: Bytes) { |start| != 0 && |end| > 8 }

  predicate RegHasKeys(r: Reg) { HasKeys(r.table.rangeStart, r.table.rangeEnd) }

  predicate DeRegHasKeys(d: LevelDeReg) { HasKeys(d.dereg.keyStart, d.dereg.keyEnd) }

  /** The table is there already, or the level takes any table, or nothing there is in its way. */
  ghost predicate CanRegister(ls: Levels, r: Reg, u: iset<Bytes>) {
    && WellFormed(r.table, u)
    && (r.level == 0 || r.table in TablesAt(ls, r.level) || Fits(TablesAt(ls, r.level), r.table))
  }

  ghost predicate RegsFit(ls: Levels, regs: seq<Reg>, u: iset<Bytes>) {
    forall i | 0 <= i < |regs| :: RegHasKeys(regs[i]) ==> CanRegister(RegisterAll(ls, regs[..i]), regs[i], u)
  }

  ghost predicate DeregsName(ls: Levels, deregs: seq<LevelDeReg>) {
    forall i | 0 <= i < |deregs| :: DeRegHasKeys(deregs[i]) ==> Names(deregs[i].dereg, TablesAt(ls, deregs[i].level))
  }

  /** Every level in its flat form. */
  ghost predicate FlatOk(l: nat, ts: Tables, u: iset<Bytes>) {
    AllWellFormed(ts, u) && DistinctIds(ts) && (l > 0 ==> Ascending(ts))
  }

  ghost predicate AllFlatOk(ls: Levels, u: iset<Bytes>) {
    forall l | 0 <= l < |ls| :: FlatOk(l, ls[l], u)
  }

  // ----- one level

  datatype Level = Level(segments: seq<Segment>, maxVersion: UInt64)

  /** What holds of a level of the master record. */
  ghost predicate LevelOk(l: nat, lev: Level, max: nat, u: iset<Bytes>) {
    && (if l == 0 then ZeroOk(lev.segments, u) else UpperOk(lev.segments, max, u))
    && DistinctIds(Flat(lev.segments))
    && forall t | t in Flat(lev.segments) :: t.maxVersion <= lev.maxVersion
  }

  datatype LevelStep = Unchanged | Changed(lev: Level) | Overlapped | Panicked

  ghost predicate RegisteredIn(l: nat, lev: Level, t: TableEntry, max: nat, u: iset<Bytes>, o: LevelStep) {
    && (HasId(Flat(lev.segments), t.id) ==> o.Unchanged?)
    && (!HasId(Flat(lev.segments), t.id) ==>
          o.Changed? && LevelOk(l, o.lev, max, u) && Flat(o.lev.segments) == AddTo(l, Flat(lev.segments), t)
          && o.lev.maxVersion == Max(lev.maxVersion, t.maxVersion))
  }

  function Max(a: UInt64, b: UInt64): UInt64 { if a < b then b else a }

  method RegisterInLevel(l: nat, lev: Level, t: TableEntry, max: nat, nextId: nat, ghost u: iset<Bytes>)
    returns (o: LevelStep)
    requires LevelOk(l, lev, max, u) && PrefixFree(u) && WellFormed(t, u) && max >= 1
    ensures l == 0 || t in Flat(lev.segments) || Fits(Flat(lev.segments), t) ==> RegisteredIn(l, lev, t, max, u, o)
    ensures o.Changed? ==> Renewed(lev.segments, o.lev.segments, nextId)
  {
    hide UpperOk, ZeroOk, Flat, Fits, WellFormed, InsertTable, DistinctIds, Renewed;
    var r;
    if l == 0 {
      r := AppendToZero(lev.segments, t, nextId, u);
    } else {
      r := InsertIntoSegments(lev.segments, t, max, nextId, u);
    }
    ghost var ts := Flat(lev.segments);
    FitsNoId(ts, t);
    match r
    case AlreadyThere => o := Unchanged;
    case Overlap => o := Overlapped;
    case NoSegment => o := Panicked;
    case Inserted(segs) =>
      var maxVersion := if t.maxVersion > lev.maxVersion then t.maxVersion else lev.maxVersion;
      o := Changed(Level(segs, maxVersion));
      if l == 0 && !HasId(ts, t.id) { AppendedDistinct(ts, t); }
      if l > 0 && Fits(ts, t) { InsertDistinct(ts, t); InsertMembers(ts, t); }
  }

  lemma {:induction false} FitsNoId(ts: Tables, t: TableEntry)
    ensures Fits(ts, t) ==> !HasId(ts, t.id)
    ensures t in ts ==> HasId(ts, t.id)
  {
  }

  lemma {:induction false} AppendedDistinct(ts: Tables, t: TableEntry)
    requires DistinctIds(ts) && !HasId(ts, t.id)
    ensures DistinctIds(ts + [t])
  {
    assert forall i | 0 <= i < |ts| :: ts[i] in ts;
  }

  lemma {:induction false} InsertDistinct(ts: Tables, t: TableEntry)
    requires DistinctIds(ts) && !HasId(ts, t.id)
    ensures DistinctIds(InsertTable(ts, t))
  {
    hide Precedes;
    if ts != [] {
      assert forall i | 0 <= i < |ts| :: ts[i] in ts;
      forall i | 0 <= i < |ts[1..]| ensures ts[1..][i].id != t.id && ts[1..][i].id != ts[0].id {
        assert ts[1..][i] == ts[i + 1];
      }
      assert DistinctIds(ts[1..]) && !HasId(ts[1..], t.id);
      InsertDistinct(ts[1..], t);
      InsertMembers(ts[1..], t);
      ghost var r := InsertTable(ts[1..], t);
      forall i | 0 <= i < |r| ensures r[i].id != ts[0].id {
        assert r[i] in r;
      }
    }
  }

  ghost predicate RemovedFrom(l: nat, lev: Level, id: TableID, max: nat, u: iset<Bytes>, o: LevelStep) {
    && (!HasId(Flat(lev.segments), id) ==> o.Unchanged? && RemoveTable(Flat(lev.segments), id) == Flat(lev.segments))
    && (HasId(Flat(lev.segments), id) ==>
          o.Changed? && LevelOk(l, o.lev, max, u) && Flat(o.lev.segments) == RemoveTable(Flat(lev.segments), id)
          && |Flat(o.lev.segments)| == |Flat(lev.segments)| - 1 && o.lev.maxVersion == lev.maxVersion)
  }

  method DeregisterInLevel(l: nat, lev: Level, d: DeReg, max: nat, nextId: nat, ghost u: iset<Bytes>)
    returns (o: LevelStep)
    requires LevelOk(l, lev, max, u) && PrefixFree(u) && Names(d, Flat(lev.segments))
    ensures RemovedFrom(l, lev, d.id, max, u, o)
    ensures o.Changed? ==> Renewed(lev.segments, o.lev.segments, nextId)
  {
    hide UpperOk, ZeroOk, Flat, RemoveTable, Names, DistinctIds, Renewed;
    var r;
    if l == 0 {
      r := RemoveFromZero(lev.segments, d, nextId, u);
    } else {
      r := RemoveFromSegments(lev.segments, d, max, nextId, u);
    }
    RemoveMembers(Flat(lev.segments), d.id);
    match r
    case NotFound => o := Unchanged;
    case Removed(segs) =>
      o := Changed(Level(segs, lev.maxVersion));
      RemovesOne(Flat(lev.segments), d.id);
  }

  lemma {:induction false} RemovesOne(ts: Tables, id: TableID)
    requires HasId(ts, id)
    ensures |RemoveTable(ts, id)| == |ts| - 1
  {
    if ts[0].id != id {
      var x :| x in ts && x.id == id;
      assert x in ts[1..];
      RemovesOne(ts[1..], id);
    }
  }

  // ----- the master record

  function Count(counts: map<nat, int>, l: nat): int { if l in counts then counts[l] else 0 }

  ghost function View(levels: seq<Level>): Levels {
    seq(|levels|, i requires 0 <= i < |levels| => Flat(levels[i].segments))
  }

  ghost function Total(ls: Levels): nat {
    if ls == [] then 0 else Total(ls[..|ls| - 1]) + |ls[|ls| - 1]|
  }

  lemma {:induction false} TotalSet(ls: Levels, l: nat, ts: Tables)
    requires l < |ls|
    ensures Total(ls[l := ts]) == Total(ls) - |ls[l]| + |ts|
  {
    var n := |ls| - 1;
    if l < n {
      TotalSet(ls[..n], l, ts);
      assert ls[l := ts][..n] == ls[..n][l := ts];
    } else {
      assert ls[l := ts][..n] == ls[..n];
    }
  }

  lemma {:induction false} TotalResize(ls: Levels, n: nat)
    ensures Total(Resize(ls, n)) == Total(ls)
  {
    if |ls| < n {
      TotalResize(ls, n - 1);
      var r := Resize(ls, n);
      assert r[..n - 1] == Resize(ls, n - 1);
      assert r[n - 1] == [];
    }
  }

  datatype Outcome = Done | Failed | Panic

  ghost predicate LevelsOk(levels: seq<Level>, max: nat, u: iset<Bytes>) {
    forall l | 0 <= l < |levels| :: LevelOk(l, levels[l], max, u)
  }

  ghost predicate CountsOk(counts: map<nat, int>, tot: int, ls: Levels) {
    && (forall l: nat :: Count(counts, l) == |TablesAt(ls, l)|)
    && tot == Total(ls)
  }

  /** Changing one level changes its count and the total by the same amount. */
  lemma {:induction false} CountsFollow(counts: map<nat, int>, tot: int, ls: Levels, l: nat, ts: Tables)
    requires CountsOk(counts, tot, ls)
    ensures var diff := |ts| - |TablesAt(ls, l)|;
            CountsOk(counts[l := Count(counts, l) + diff], tot + diff, SetLevel(ls, l, ts))
  {
    hide Total;
    var ls' := SetLevel(ls, l, ts);
    forall k: nat ensures TablesAt(ls', k) == if k == l then ts else TablesAt(ls, k) { SetLevelAt(ls, l, ts, k); }
    TotalResize(ls, l + 1);
    TotalSet(Resize(ls, l + 1), l, ts);
  }

  lemma {:induction false} EmptyLevelOk(l: nat, max: nat, u: iset<Bytes>)
    ensures LevelOk(l, Level([], 0), max, u)
  {
  }

  // ----- segment ids and versions

  /** Every segment of the record has an id of its own, given out before nextId. */
  ghost predicate IdsOk(levels: seq<Level>, nextId: nat) {
    && (forall l | 0 <= l < |levels| :: SegmentIdsOk(levels[l].segments, nextId))
    && forall l, m | 0 <= l < m < |levels| :: NoIdShared(levels[l].segments, levels[m].segments)
  }

  ghost predicate SegmentIdsOk(segs: seq<Segment>, nextId: nat) {
    (forall s | s in segs :: s.id < nextId) && forall i, j | 0 <= i < j < |segs| :: segs[i].id != segs[j].id
  }

  ghost predicate NoIdShared(a: seq<Segment>, b: seq<Segment>) { forall s, t | s in a && t in b :: s.id != t.id }

  lemma {:induction false} RenewKeepsIds(levels: seq<Level>, l: nat, lev: Level, nextId: nat)
    requires IdsOk(levels, nextId) && l < |levels| && Renewed(levels[l].segments, lev.segments, nextId)
    ensures IdsOk(levels[l := lev], nextId + 2)
  {
    hide Renewed;
    var segs, segs' := levels[l].segments, lev.segments;
    RenewedIds(segs, segs', nextId);
    forall m | 0 <= m < |levels| && m != l
      ensures NoIdShared(levels[m].segments, segs') && NoIdShared(segs', levels[m].segments)
    {
      assert SegmentIdsOk(levels[m].segments, nextId);
      assert NoIdShared(levels[m].segments, segs) || NoIdShared(segs, levels[m].segments);
    }
  }

  lemma {:induction false} LaterIds(levels: seq<Level>, nextId: nat, later: nat)
    requires IdsOk(levels, nextId) && nextId <= later
    ensures IdsOk(levels, later)
  {
  }

  lemma {:induction false} SameSize(levels: seq<Level>, n: nat)
    requires n <= |levels|
    ensures Resize(View(levels), n) == View(levels)
  {
  }

  lemma {:induction false} GrowKeepsAll(levels: seq<Level>, n: nat, counts: map<nat, int>, tot: int, max: nat,
                                        u: iset<Bytes>)
    requires |levels| <= n && LevelsOk(levels, max, u) && CountsOk(counts, tot, View(levels))
    ensures var levels' := levels + seq(n - |levels|, _ => Level([], 0));
            && LevelsOk(levels', max, u) && CountsOk(counts, tot, View(levels'))
            && View(levels') == Resize(View(levels), n)
            && forall k: nat :: VersionAt(levels', k) == VersionAt(levels, k)
  {
    hide LevelOk, Total;
    var levels' := levels + seq(n - |levels|, _ => Level([], 0));
    assert View(levels') == Resize(View(levels), n);
    TotalResize(View(levels), n);
    forall k: nat ensures TablesAt(View(levels'), k) == TablesAt(View(levels), k) {}
    forall k | 0 <= k < |levels'| ensures LevelOk(k, levels'[k], max, u) {
      if k >= |levels| { EmptyLevelOk(k, max, u); }
    }
  }

  lemma {:induction false} GrowKeepsIds(levels: seq<Level>, n: nat, nextId: nat)
    requires IdsOk(levels, nextId)
    ensures IdsOk(levels + seq(n, _ => Level([], 0)), nextId)
  {
    var levels' := levels + seq(n, _ => Level([], 0));
    forall l | 0 <= l < |levels'| ensures SegmentIdsOk(levels'[l].segments, nextId) {
      if l < |levels| { assert levels'[l] == levels[l]; }
    }
    forall l, m | 0 <= l < m < |levels'| ensures NoIdShared(levels'[l].segments, levels'[m].segments) {
      if m < |levels| { assert levels'[l] == levels[l] && levels'[m] == levels[m]; }
    }
  }

  /** The highest version registered in a level so far; 0 in one that is not there. */
  function VersionAt(levels: seq<Level>, l: nat): UInt64 { if l < |levels| then levels[l].maxVersion else 0 }

  class MasterRecord {
    const maxEntries: nat
    ghost const u: iset<Bytes>
    var levels: seq<Level>
    var tableCounts: map<nat, int>
    var totTables: int
    var nextId: nat
    var version: nat

    /** The index is sound: what Validate checks, and counts that are the real ones. */
    ghost predicate Valid()
      reads this
    {
      && maxEntries >= 1 && PrefixFree(u)
      && LevelsOk(levels, maxEntries, u)
      && CountsOk(tableCounts, totTables, View(levels))
      && IdsOk(levels, nextId)
    }

    constructor (maxEntries: nat, ghost u: iset<Bytes>)
      requires maxEntries >= 1 && PrefixFree(u)
      ensures Valid() && levels == [] && this.u == u && this.maxEntries == maxEntries
    {
      this.maxEntries, this.u := maxEntries, u;
      levels, tableCounts, totTables, nextId, version := [], map[], 0, 0, 0;
    }

    /** getLevelSegmentEntries: the level, after growing the record if it is not there. */
    method GetLevel(l: nat) returns (lev: Level)
      requires Valid()
      modifies this`levels
      ensures Valid() && l < |levels| && lev == levels[l]
      ensures View(levels) == Resize(old(View(levels)), l + 1)
      ensures forall k: nat :: VersionAt(levels, k) == VersionAt(old(levels), k)
    {
      hide IdsOk, LevelsOk, CountsOk, View, Resize;
      if l < |levels| {
        SameSize(levels, l + 1);
      } else {
        GrowKeepsAll(levels, l + 1, tableCounts, totTables, maxEntries, u);
        GrowKeepsIds(levels, l + 1 - |levels|, nextId);
        levels := levels + seq(l + 1 - |levels|, _ => Level([], 0));
      }
      lev := levels[l];
    }

    /** setLevelSegmentEntries, and the counts that go with it. */
    method SetLevelTo(l: nat, lev: Level, diff: int)
      requires Valid() && l < |levels| && LevelOk(l, lev, maxEntries, u)
      requires diff == |Flat(lev.segments)| - |Flat(levels[l].segments)|
      requires Renewed(levels[l].segments, lev.segments, nextId)
      modifies this`levels, this`tableCounts, this`totTables, this`nextId
      ensures Valid() && View(levels) == old(View(levels))[l := Flat(lev.segments)]
      ensures levels == old(levels)[l := lev] && old(nextId) <= nextId
    {
      hide LevelOk, CountsOk, Total, IdsOk, Renewed;
      RenewKeepsIds(levels, l, lev, nextId);
      ghost var ls, ts := View(levels), Flat(lev.segments);
      CountsFollow(tableCounts, totTables, ls, l, ts);
      levels := levels[l := lev];
      tableCounts := tableCounts[l := Count(tableCounts, l) + diff];
      totTables := totTables + diff;
      nextId := nextId + 2;
      assert View(levels) == ls[l := ts] == SetLevel(ls, l, ts);
    }

    /** One turn of the loop of applyRegistrations. */
    method RegisterTable(r: Reg) returns (o: Outcome)
      requires Valid()
      requires RegHasKeys(r) ==> CanRegister(View(levels), r, u)
      modifies this`levels, this`tableCounts, this`totTables, this`nextId
      ensures Valid()
      ensures RegHasKeys(r) ==> o == Done && View(levels) == RegisterIn(old(View(levels)), r)
      ensures !RegHasKeys(r) ==> o == Failed && levels == old(levels)
      ensures o == Failed <==> |r.table.rangeStart| == 0 || |r.table.rangeEnd| <= 8
      ensures old(nextId) <= nextId
      ensures RegHasKeys(r) ==> forall l: nat ::
                VersionAt(levels, l) == if l == r.level && !HasId(TablesAt(old(View(levels)), l), r.table.id)
                                        then Max(VersionAt(old(levels), l), r.table.maxVersion)
                                        else VersionAt(old(levels), l)
    {
      hide LevelOk, CountsOk, WellFormed, AddTo, Fits, HasId, IdsOk, Renewed;
      if !RegHasKeys(r) { return Failed; }
      ghost var ls := View(levels);
      var lev := GetLevel(r.level);
      assert View(levels)[r.level] == Flat(lev.segments) == TablesAt(ls, r.level);
      var s := RegisterInLevel(r.level, lev, r.table, maxEntries, nextId, u);
      AddsOne(r.level, Flat(lev.segments), r.table);
      match s
      case Unchanged =>
        assert View(levels) == View(levels)[r.level := Flat(lev.segments)];
        o := Done;
      case Changed(lev') =>
        SetLevelTo(r.level, lev', 1);
        o := Done;
      case Overlapped => o := Failed;
      case Panicked => o := Panic;
    }

    /** One turn of the loop of applyDeRegistrations. */
    method DeregisterTable(d: LevelDeReg) returns (o: Outcome)
      requires Valid()
      requires DeRegHasKeys(d) ==> Names(d.dereg, TablesAt(View(levels), d.level))
      modifies this`levels, this`tableCounts, this`totTables, this`nextId
      ensures Valid()
      ensures DeRegHasKeys(d) ==> o == Done && View(levels) == DeregisterIn(old(View(levels)), d)
      ensures !DeRegHasKeys(d) ==> o == Failed
      ensures o == Failed <==> |d.dereg.keyStart| == 0 || |d.dereg.keyEnd| <= 8
      ensures old(nextId) <= nextId && forall l: nat :: VersionAt(levels, l) == VersionAt(old(levels), l)
    {
      hide LevelOk, CountsOk, Names, RemoveTable, HasId, IdsOk, Renewed;
      if !DeRegHasKeys(d) { return Failed; }
      ghost var ls := View(levels);
      var lev := GetLevel(d.level);
      assert View(levels)[d.level] == Flat(lev.segments) == TablesAt(ls, d.level);
      var s := DeregisterInLevel(d.level, lev, d.dereg, maxEntries, nextId, u);
      if s.Changed? {
        SetLevelTo(d.level, s.lev, -1);
      } else {
        assert View(levels) == View(levels)[d.level := Flat(lev.segments)];
      }
      o := Done;
    }

    method ApplyRegistrations(regs: seq<Reg>) returns (o: Outcome)
      requires Valid() && RegsFit(View(levels), regs, u)
      modifies this`levels, this`tableCounts, this`totTables, this`nextId
      ensures Valid()
      ensures o == Done <==> forall i | 0 <= i < |regs| :: RegHasKeys(regs[i])
      ensures o == Done ==> View(levels) == RegisterAll(old(View(levels)), regs)
      ensures (o == Done || o == Failed) && old(nextId) <= nextId
      ensures forall l: nat :: VersionAt(old(levels), l) <= VersionAt(levels, l)
    {
      hide Valid, RegHasKeys, RegisterIn, View, CanRegister;
      ghost var ls := View(levels);
      assert regs[..0] == [];
      for i := 0 to |regs|
        invariant Valid() && View(levels) == RegisterAll(ls, regs[..i]) && old(nextId) <= nextId
        invariant forall l: nat :: VersionAt(old(levels), l) <= VersionAt(levels, l)
        invariant forall j | 0 <= j < i :: RegHasKeys(regs[j])
      {
        assert regs[..i + 1][..i] == regs[..i];
        o := RegisterTable(regs[i]);
        if o != Done { return; }
      }
      assert regs[..|regs|] == regs;
      o := Done;
    }

    method ApplyDeRegistrations(deregs: seq<LevelDeReg>) returns (o: Outcome)
      requires Valid() && DeregsName(View(levels), deregs)
      modifies this`levels, this`tableCounts, this`totTables, this`nextId
      ensures Valid()
      ensures o == Done <==> forall i | 0 <= i < |deregs| :: DeRegHasKeys(deregs[i])
      ensures o == Done ==> View(levels) == DeregisterAll(old(View(levels)), deregs)
      ensures (o == Done || o == Failed) && old(nextId) <= nextId
      ensures forall l: nat :: VersionAt(levels, l) == VersionAt(old(levels), l)
    {
      hide Valid, DeRegHasKeys, DeregisterIn, View, Names, TablesAt;
      ghost var ls := View(levels);
      assert deregs[..0] == [];
      for i := 0 to |deregs|
        invariant Valid() && View(levels) == DeregisterAll(ls, deregs[..i]) && old(nextId) <= nextId
        invariant forall l: nat :: VersionAt(levels, l) == VersionAt(old(levels), l)
        invariant forall j | 0 <= j < i :: DeRegHasKeys(deregs[j])
      {
        assert deregs[..i + 1][..i] == deregs[..i];
        NamesKept(ls, deregs[..i], deregs[i]);
        o := DeregisterTable(deregs[i]);
        if o != Done { return; }
      }
      assert deregs[..|deregs|] == deregs;
      o := Done;
    }

    /** doApplyChanges: all of the batch or, on an error, none of it. */
    method DoApplyChanges(regs: seq<Reg>, deregs: seq<LevelDeReg>) returns (o: Outcome)
      requires Valid() && DeregsName(View(levels), deregs)
      requires RegsFit(DeregisterAll(View(levels), deregs), regs, u)
      modifies this
      ensures Valid()
      ensures o == Done <==> (forall r | r in regs :: RegHasKeys(r)) && (forall d | d in deregs :: DeRegHasKeys(d))
      ensures o == Done ==> View(levels) == ApplyBatch(old(View(levels)), regs, deregs) && version == old(version) + 1
      ensures o != Done ==> o == Failed && levels == old(levels) && tableCounts == old(tableCounts)
                            && totTables == old(totTables) && version == old(version)
      ensures forall l: nat :: VersionAt(old(levels), l) <= VersionAt(levels, l)
    {
      hide RegHasKeys, DeRegHasKeys, RegsFit, DeregsName, LevelsOk, CountsOk, IdsOk;
      var levelsCopy, countsCopy, totCopy := levels, tableCounts, totTables;
      o := ApplyDeRegistrations(deregs);
      if o == Done { o := ApplyRegistrations(regs); }
      if o != Done {
        levels, tableCounts, totTables := levelsCopy, countsCopy, totCopy;
        LaterIds(levels, old(nextId), nextId);
        return;
      }
      version := version + 1;
    }
  }

  /** De-registrations only take tables away, so a name that was right stays right. */
  lemma {:induction false} DeregisteredSubset(ls: Levels, deregs: seq<LevelDeReg>, l: nat, x: TableEntry)
    requires x in TablesAt(DeregisterAll(ls, deregs), l)
    ensures x in TablesAt(ls, l)
  {
    if deregs != [] {
      var ls', d := DeregisterAll(ls, deregs[..|deregs| - 1]), deregs[|deregs| - 1];
      SetLevelAt(ls', d.level, RemoveTable(TablesAt(ls', d.level), d.dereg.id), l);
      RemoveSubset(TablesAt(ls', l), d.dereg.id, x);
      DeregisteredSubset(ls, deregs[..|deregs| - 1], l, x);
    }
  }

  lemma {:induction false} RemoveSubset(ts: Tables, id: TableID, x: TableEntry)
    ensures x in RemoveTable(ts, id) ==> x in ts
  {
    if ts != [] { RemoveSubset(ts[1..], id, x); }
  }

  lemma {:induction false} NamesKept(ls: Levels, deregs: seq<LevelDeReg>, d: LevelDeReg)
    ensures Names(d.dereg, TablesAt(ls, d.level)) ==> Names(d.dereg, TablesAt(DeregisterAll(ls, deregs), d.level))
  {
    forall x | x in TablesAt(DeregisterAll(ls, deregs), d.level) ensures x in TablesAt(ls, d.level) {
      DeregisteredSubset(ls, deregs, d.level, x);
    }
  }

  lemma {:induction false} AddsOne(l: nat, ts: Tables, t: TableEntry)
    ensures HasId(ts, t.id) ==> AddTo(l, ts, t) == ts
    ensures !HasId(ts, t.id) ==> |AddTo(l, ts, t)| == |ts| + 1
  {
  }

  // ----- a batch keeps every level sound

  lemma {:induction false} RegisterKeepsFlatOk(ls: Levels, r: Reg, u: iset<Bytes>)
    requires PrefixFree(u) && AllFlatOk(ls, u) && CanRegister(ls, r, u)
    ensures AllFlatOk(RegisterIn(ls, r), u)
  {
    hide WellFormed, DistinctIds, Ascending, InsertTable, Fits, AllWellFormed;
    var ts := TablesAt(ls, r.level);
    EmptyFlatOk(r.level, u);
    AddKeepsFlatOk(r.level, ts, r.table, u);
    forall l | 0 <= l < |RegisterIn(ls, r)| ensures FlatOk(l, RegisterIn(ls, r)[l], u) {
      EmptyFlatOk(l, u);
      SetLevelAt(ls, r.level, AddTo(r.level, ts, r.table), l);
    }
  }

  lemma {:induction false} EmptyFlatOk(l: nat, u: iset<Bytes>)
    ensures FlatOk(l, [], u)
  {
  }

  lemma {:induction false} AddKeepsFlatOk(l: nat, ts: Tables, t: TableEntry, u: iset<Bytes>)
    requires PrefixFree(u) && FlatOk(l, ts, u) && WellFormed(t, u)
    requires l == 0 || t in ts || Fits(ts, t)
    ensures FlatOk(l, AddTo(l, ts, t), u)
  {
    hide WellFormed, Precedes;
    FitsNoId(ts, t);
    if !HasId(ts, t.id) {
      if l == 0 {
        AppendedDistinct(ts, t);
      } else {
        var p := FindSplit(ts, t, u);
        SplitInsert(ts, t, p, u);
        InsertedAscending(ts, t, p);
        InsertDistinct(ts, t);
      }
    }
  }

  /** In an ascending level there is a place for a table that fits. */
  lemma {:induction false} FindSplit(ts: Tables, t: TableEntry, u: iset<Bytes>) returns (p: nat)
    requires PrefixFree(u) && AllWellFormed(ts, u) && Ascending(ts) && WellFormed(t, u) && Fits(ts, t)
    ensures Splits(ts, t, p)
  {
    hide WellFormed, Precedes;
    p := 0;
    while p < |ts| && Precedes(ts[p], t)
      invariant p <= |ts| && forall i | 0 <= i < p :: Precedes(ts[i], t)
    {
      p := p + 1;
    }
    forall i | p <= i < |ts| ensures Precedes(t, ts[i]) {
      if i > p { PrecedesTrans(t, ts[p], ts[i], u); }
    }
  }

  lemma {:induction false} DeregisterKeepsFlatOk(ls: Levels, d: LevelDeReg, u: iset<Bytes>)
    requires AllFlatOk(ls, u)
    ensures AllFlatOk(DeregisterIn(ls, d), u)
  {
    hide WellFormed, DistinctIds, Ascending, RemoveTable;
    var ts := TablesAt(ls, d.level);
    EmptyFlatOk(d.level, u);
    RemoveKeepsFlatOk(d.level, ts, d.dereg.id, u);
    forall l | 0 <= l < |DeregisterIn(ls, d)| ensures FlatOk(l, DeregisterIn(ls, d)[l], u) {
      EmptyFlatOk(l, u);
      SetLevelAt(ls, d.level, RemoveTable(ts, d.dereg.id), l);
    }
  }

  lemma {:induction false} RemoveKeepsFlatOk(l: nat, ts: Tables, id: TableID, u: iset<Bytes>)
    requires FlatOk(l, ts, u)
    ensures FlatOk(l, RemoveTable(ts, id), u)
  {
    hide WellFormed, Precedes, RemoveTable;
    RemoveMembers(ts, id);
    if l > 0 { RemoveAscending(ts, id); }
    var r := RemoveTable(ts, id);
    forall i | 0 <= i < |r| ensures WellFormed(r[i], u) {
      assert r[i] in r;
      var k :| 0 <= k < |ts| && ts[k] == r[i];
    }
  }

  lemma {:induction false} DeregisterAllKeepsFlatOk(ls: Levels, deregs: seq<LevelDeReg>, u: iset<Bytes>)
    requires AllFlatOk(ls, u)
    ensures AllFlatOk(DeregisterAll(ls, deregs), u)
  {
    if deregs != [] {
      DeregisterAllKeepsFlatOk(ls, deregs[..|deregs| - 1], u);
      DeregisterKeepsFlatOk(DeregisterAll(ls, deregs[..|deregs| - 1]), deregs[|deregs| - 1], u);
    }
  }

  lemma {:induction false} RegisterAllKeepsFlatOk(ls: Levels, regs: seq<Reg>, u: iset<Bytes>)
    requires PrefixFree(u) && AllFlatOk(ls, u) && RegsFit(ls, regs, u)
    requires forall i | 0 <= i < |regs| :: RegHasKeys(regs[i])
    ensures AllFlatOk(RegisterAll(ls, regs), u)
  {
    hide AllFlatOk, CanRegister, RegHasKeys, RegisterIn;
    if regs != [] {
      var n := |regs| - 1;
      assert forall i | 0 <= i < n :: regs[..n][..i] == regs[..i];
      assert RegsFit(ls, regs[..n], u);
      RegisterAllKeepsFlatOk(ls, regs[..n], u);
      RegisterKeepsFlatOk(RegisterAll(ls, regs[..n]), regs[n], u);
    }
  }

  // ----- applying a batch twice

  ghost predicate AbsentFrom(ls: Levels, d: LevelDeReg) {
    d.level < |ls| && !HasId(ls[d.level], d.dereg.id)
  }

  ghost predicate PresentIn(ls: Levels, r: Reg) {
    r.level < |ls| && HasId(ls[r.level], r.table.id)
  }

  lemma {:induction false} AbsentNoop(ls: Levels, deregs: seq<LevelDeReg>)
    requires forall d | d in deregs :: AbsentFrom(ls, d)
    ensures DeregisterAll(ls, deregs) == ls
  {
    if deregs != [] {
      var d := deregs[|deregs| - 1];
      AbsentNoop(ls, deregs[..|deregs| - 1]);
      assert d in deregs;
      AbsentId(ls[d.level], d.dereg.id);
    }
  }

  lemma {:induction false} PresentNoop(ls: Levels, regs: seq<Reg>)
    requires forall r | r in regs :: PresentIn(ls, r)
    ensures RegisterAll(ls, regs) == ls
  {
    if regs != [] {
      PresentNoop(ls, regs[..|regs| - 1]);
      assert regs[|regs| - 1] in regs;
    }
  }

  lemma {:induction false} DeregisteredAbsent(ls: Levels, deregs: seq<LevelDeReg>, u: iset<Bytes>, d: LevelDeReg)
    requires AllFlatOk(ls, u) && d in deregs
    ensures AbsentFrom(DeregisterAll(ls, deregs), d)
  {
    hide AllFlatOk, AbsentFrom, DeregisterIn;
    var n := |deregs| - 1;
    DeregisterAllKeepsFlatOk(ls, deregs[..n], u);
    if d != deregs[n] {
      assert d in deregs[..n];
      DeregisteredAbsent(ls, deregs[..n], u, d);
    }
    OneAbsent(DeregisterAll(ls, deregs[..n]), deregs[n], u, d);
  }

  lemma {:induction false} OneAbsent(ls: Levels, last: LevelDeReg, u: iset<Bytes>, d: LevelDeReg)
    requires AllFlatOk(ls, u) && (d == last || AbsentFrom(ls, d))
    ensures AbsentFrom(DeregisterIn(ls, last), d)
  {
    hide AllWellFormed, Ascending;
    var ts := TablesAt(ls, last.level);
    RemoveMembers(ts, last.dereg.id);
    SetLevelAt(ls, last.level, RemoveTable(ts, last.dereg.id), d.level);
  }

  lemma {:induction false} AddHasId(l: nat, ts: Tables, t: TableEntry, id: TableID)
    ensures HasId(AddTo(l, ts, t), id) <==> HasId(ts, id) || id == t.id
  {
    InsertMembers(ts, t);
    if HasId(ts, id) {
      var x :| x in ts && x.id == id;
      assert x in AddTo(l, ts, t);
    }
    if id == t.id && !HasId(ts, id) { assert t in AddTo(l, ts, t); }
  }

  lemma {:induction false} RegisterKeepsAbsent(ls: Levels, regs: seq<Reg>, d: LevelDeReg)
    requires AbsentFrom(ls, d) && forall r | r in regs :: r.level != d.level || r.table.id != d.dereg.id
    ensures AbsentFrom(RegisterAll(ls, regs), d)
  {
    hide AddTo, HasId;
    if regs != [] {
      var n := |regs| - 1;
      RegisterKeepsAbsent(ls, regs[..n], d);
      var ls', r := RegisterAll(ls, regs[..n]), regs[n];
      assert r in regs;
      SetLevelAt(ls', r.level, AddTo(r.level, TablesAt(ls', r.level), r.table), d.level);
      AddHasId(r.level, TablesAt(ls', r.level), r.table, d.dereg.id);
    }
  }

  lemma {:induction false} RegisteredPresent(ls: Levels, regs: seq<Reg>, r: Reg)
    requires r in regs
    ensures PresentIn(RegisterAll(ls, regs), r)
  {
    hide AddTo, HasId;
    var n := |regs| - 1;
    var ls', last := RegisterAll(ls, regs[..n]), regs[n];
    SetLevelAt(ls', last.level, AddTo(last.level, TablesAt(ls', last.level), last.table), r.level);
    AddHasId(last.level, TablesAt(ls', last.level), last.table, r.table.id);
    if r != last {
      assert r in regs[..n];
      RegisteredPresent(ls, regs[..n], r);
    }
  }

  /**
   Batches are idempotent: applying one a second time, as a resubmission or a replay does, leaves
   every level as the first application left it. A batch must not de-register and register the same
   id in the same level.
   */
  lemma {:induction false} ReapplyChangesNothing(ls: Levels, regs: seq<Reg>, deregs: seq<LevelDeReg>, u: iset<Bytes>)
    requires AllFlatOk(ls, u)
    requires forall r, d | r in regs && d in deregs :: r.level != d.level || r.table.id != d.dereg.id
    ensures var once := ApplyBatch(ls, regs, deregs); ApplyBatch(once, regs, deregs) == once
  {
    hide AllFlatOk, AbsentFrom, PresentIn, RegisterAll, DeregisterAll;
    var once := ApplyBatch(ls, regs, deregs);
    forall d | d in deregs ensures AbsentFrom(once, d) {
      DeregisteredAbsent(ls, deregs, u, d);
      RegisterKeepsAbsent(DeregisterAll(ls, deregs), regs, d);
    }
    AbsentNoop(once, deregs);
    forall r | r in regs ensures PresentIn(once, r) { RegisteredPresent(DeregisterAll(ls, deregs), regs, r); }
    PresentNoop(once, regs);
  }

  // ----- what a batch leaves in each level

  ghost predicate Kept(deregs: seq<LevelDeReg>, l: nat, id: TableID) {
    forall d | d in deregs :: d.level != l || d.dereg.id != id
  }

  lemma {:induction false} DeregisteredMembers(ls: Levels, deregs: seq<LevelDeReg>, l: nat, x: TableEntry,
                                               u: iset<Bytes>)
    requires AllFlatOk(ls, u)
    ensures x in TablesAt(DeregisterAll(ls, deregs), l) <==> x in TablesAt(ls, l) && Kept(deregs, l, x.id)
  {
    hide WellFormed, Ascending, AllWellFormed;
    if deregs != [] {
      var n := |deregs| - 1;
      DeregisteredMembers(ls, deregs[..n], l, x, u);
      DeregisterAllKeepsFlatOk(ls, deregs[..n], u);
      var ls', d := DeregisterAll(ls, deregs[..n]), deregs[n];
      SetLevelAt(ls', d.level, RemoveTable(TablesAt(ls', d.level), d.dereg.id), l);
      RemoveMembers(TablesAt(ls', d.level), d.dereg.id);
      assert deregs == deregs[..n] + [d];
      assert Kept(deregs, l, x.id) <==> Kept(deregs[..n], l, x.id) && (d.level != l || d.dereg.id != x.id);
    }
  }

  function RegsTo(level: nat, ts: Tables): (r: seq<Reg>)
    ensures |r| == |ts| && forall i | 0 <= i < |r| :: r[i] == Reg(level, ts[i])
  {
    seq(|ts|, i requires 0 <= i < |ts| => Reg(level, ts[i]))
  }

  function DeregsFrom(level: nat, ts: Tables): (r: seq<LevelDeReg>)
    ensures |r| == |ts|
    ensures forall i | 0 <= i < |r| :: r[i] == LevelDeReg(level, DeReg(ts[i].id, ts[i].rangeStart, ts[i].rangeEnd))
  {
    seq(|ts|, i requires 0 <= i < |ts| => LevelDeReg(level, DeReg(ts[i].id, ts[i].rangeStart, ts[i].rangeEnd)))
  }

  /** Tables that fit a level and do not meet each other can all be registered in it, in order. */
  lemma {:induction false} RegisterDisjoint(ls: Levels, level: nat, ts: Tables, u: iset<Bytes>)
    requires forall i | 0 <= i < |ts| :: WellFormed(ts[i], u) && Fits(TablesAt(ls, level), ts[i])
    requires Ascending(ts) && DistinctIds(ts) && level > 0
    ensures RegsFit(ls, RegsTo(level, ts), u)
    ensures forall x ::
              x in TablesAt(RegisterAll(ls, RegsTo(level, ts)), level) <==> x in TablesAt(ls, level) || x in ts
    ensures forall l: nat | l != level :: TablesAt(RegisterAll(ls, RegsTo(level, ts)), l) == TablesAt(ls, l)
  {
    hide WellFormed, AddTo, Precedes;
    if ts != [] {
      var n := |ts| - 1;
      var regs := RegsTo(level, ts);
      assert regs[..n] == RegsTo(level, ts[..n]);
      RegisterDisjoint(ls, level, ts[..n], u);
      var ls', t := RegisterAll(ls, regs[..n]), ts[n];
      forall x | x in TablesAt(ls', level) ensures x.id != t.id && Apart(x, t) {
        if x in ts[..n] { var k :| 0 <= k < n && ts[k] == x; }
      }
      assert Fits(TablesAt(ls', level), t) by {
        assert forall i | 0 <= i < |TablesAt(ls', level)| :: TablesAt(ls', level)[i] in TablesAt(ls', level);
      }
      FitsNoId(TablesAt(ls', level), t);
      AddMembers(level, TablesAt(ls', level), t);
      forall l: nat ensures TablesAt(RegisterAll(ls, regs), l) == if l == level then AddTo(level, TablesAt(ls', level),
        t) else TablesAt(ls', l) {
        SetLevelAt(ls', level, AddTo(level, TablesAt(ls', level), t), l);
      }
      assert ts == ts[..n] + [t];
      FitPrefix(ls, regs, n, u);
    }
  }

  lemma {:induction false} AddMembers(l: nat, ts: Tables, t: TableEntry)
    requires !HasId(ts, t.id)
    ensures forall x :: x in AddTo(l, ts, t) <==> x in ts || x == t
  {
    InsertMembers(ts, t);
  }

  lemma {:induction false} FitPrefix(ls: Levels, regs: seq<Reg>, n: nat, u: iset<Bytes>)
    requires n == |regs| - 1 && RegsFit(ls, regs[..n], u) && CanRegister(RegisterAll(ls, regs[..n]), regs[n], u)
    ensures RegsFit(ls, regs, u)
  {
    hide CanRegister, RegHasKeys, RegisterAll;
    forall i | 0 <= i < |regs| && RegHasKeys(regs[i]) ensures CanRegister(RegisterAll(ls, regs[..i]), regs[i], u) {
      if i < n {
        assert regs[..n][..i] == regs[..i];
        assert RegHasKeys(regs[..n][i]);
      }
    }
  }
}
