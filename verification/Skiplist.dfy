/**
 arenaskl: the lock-free skiplist as a state machine. Any number of goroutines run Iterator.Add at
 the same time; a step is one atomic access of one of them, so a run is any interleaving. In every
 reachable state each level is a strictly sorted list of a subset of the nodes of the level below,
 no linked node is ever lost, and the search never meets its own key above the base level.
 */
module Skiplist {
  import opened Bytes
  import opened SkiplistLevel

  datatype Splice = Splice(prev: Id, next: Id)

  /** Where a goroutine is. Absent splices are the levels above the list's height when it began. */
  datatype Thread =
    | Seeking(key: Bytes, level: nat, prev: Id, splices: map<nat, Splice>)
    | Missing(key: Bytes, splices: map<nat, Splice>)
    | Adding(height: nat, level: nat, insert: Insert, splices: map<nat, Splice>)
    | Added(node: Id)
    | Exists(node: Id)
    | Full

  datatype State = State(bytes: map<Id, Bytes>, levels: seq<Level>, threads: map<nat, Thread>, panicked: bool)

  ghost function RanksOf(bytes: map<Id, Bytes>): Ranks {
    map id | id in bytes.Keys + {HEAD, TAIL} :: if id == HEAD then -1.0 else if id == TAIL then 2.0 else Rank(bytes[id])
  }

  function SpliceAt(splices: map<nat, Splice>, level: nat): Splice {
    if level in splices then splices[level] else Splice(HEAD, TAIL)
  }

  // ----- the steps

  /** One turn of the loop of findSpliceForLevel: what the node read there says. */
  datatype Look = Past | Equal | Further

  function LookAt(s: State, key: Bytes, n: Id): Look {
    if n == TAIL || n !in s.bytes then Past
    else if key == s.bytes[n] then Equal
    else if Less(key, s.bytes[n]) then Past
    else Further
  }

  function Next(s: State, level: nat, a: Id): Id {
    if level < |s.levels| && a in s.levels[level].next then s.levels[level].next[a] else TAIL
  }

  function Set(s: State, t: nat, th: Thread): State { s.(threads := s.threads[t := th]) }

  /** Add begins: the search starts at the head on the list's current top level. */
  function Begin(s: State, t: nat, key: Bytes, top: nat): State { Set(s, t, Seeking(key, top, HEAD, map[])) }

  /** A read of a next link by seekForSplice. */
  function SeekStep(s: State, t: nat): State
    requires t in s.threads && s.threads[t].Seeking?
  {
    var th := s.threads[t];
    var n := Next(s, th.level, th.prev);
    var splices := th.splices[th.level := Splice(th.prev, n)];
    match LookAt(s, th.key, n)
    case Further => Set(s, t, th.(prev := n))
    case Equal =>
      if th.level == 0 then Set(s, t, Exists(n))
      else Set(s, t, Seeking(th.key, th.level - 1, th.prev, splices))
    case Past =>
      if th.level == 0 then Set(s, t, Missing(th.key, splices))
      else Set(s, t, Seeking(th.key, th.level - 1, th.prev, splices))
  }

  function InsertAt(nd: Id, splices: map<nat, Splice>, level: nat): Insert {
    Insert(nd, SpliceAt(splices, level).prev, SpliceAt(splices, level).next, Init)
  }

  /** newNode succeeded: the node exists with its key, linked nowhere. */
  function Create(s: State, t: nat, id: Id, height: nat): State
    requires t in s.threads && s.threads[t].Missing?
  {
    var th := s.threads[t];
    Set(s, t, Adding(height, 0, InsertAt(id, th.splices, 0), th.splices)).(bytes := s.bytes[id := th.key])
  }

  /** A step of the insertion loop. */
  function AddStep(s: State, t: nat): State
    requires t in s.threads && s.threads[t].Adding? && s.threads[t].level < |s.levels|
  {
    var th := s.threads[t];
    var w, i := th.insert, th.level;
    if w.pc.ReSeek? then ReSeekStep(s, t)
    else
      var s' := s.(levels := s.levels[i := NewLevel(s.levels[i], w)]);
      if w.pc.Final? then
        if i + 1 < th.height then Set(s', t, th.(level := i + 1, insert := InsertAt(w.nd, th.splices, i + 1)))
        else Set(s', t, Added(w.nd))
      else Set(s', t, th.(insert := w.(pc := NewPc(s.levels[i], w))))
  }

  /** A read of a next link by the repeated search. Above the base level the source panics on its own key. */
  function ReSeekStep(s: State, t: nat): State
    requires t in s.threads && s.threads[t].Adding? && s.threads[t].level < |s.levels|
  {
    var th := s.threads[t];
    var w, i := th.insert, th.level;
    var n := Next(s, i, w.prev);
    var key := if w.nd in s.bytes then s.bytes[w.nd] else [];
    match LookAt(s, key, n)
    case Further => Set(s, t, th.(insert := w.(prev := n)))
    case Equal => if i == 0 then Set(s, t, Exists(n)) else s.(panicked := true)
    case Past => Set(s, t, th.(insert := Insert(w.nd, w.prev, n, Init)))
  }

  // ----- the invariant

  /** Inserts in progress on a level. */
  ghost function At(s: State, i: nat): Inserts {
    map t | t in s.threads && s.threads[t].Adding? && s.threads[t].level == i :: s.threads[t].insert
  }

  /** A splice found earlier: nodes linked then are linked now, and nothing is between but newer nodes. */
  ghost predicate SpliceOk(lv: Level, k: Ranks, r: real, sp: Splice, strict: bool) {
    && lv.linked <= k.Keys && sp.prev in lv.linked && sp.prev != TAIL && k[sp.prev] < r
    && sp.next in lv.linked && sp.next != HEAD && (if strict then r < k[sp.next] else r <= k[sp.next])
    && sp.prev in lv.next && lv.next[sp.prev] in k && k[lv.next[sp.prev]] <= k[sp.next]
  }

  ghost predicate SplicesOk(levels: seq<Level>, k: Ranks, r: real, splices: map<nat, Splice>, from: nat, strict: bool) {
    forall j | from <= j < |levels| && j in splices :: SpliceOk(levels[j], k, r, splices[j], strict)
  }

  ghost predicate ThreadOk(bytes: map<Id, Bytes>, levels: seq<Level>, th: Thread) {
    var k := RanksOf(bytes);
    match th
    case Seeking(key, level, prev, splices) =>
      && level < |levels| && prev in levels[level].linked && prev != TAIL && prev in k && k[prev] < Rank(key)
      && SplicesOk(levels, k, Rank(key), splices, level + 1, false)
    case Missing(key, splices) => SplicesOk(levels, k, Rank(key), splices, 0, true)
    case Adding(height, level, w, splices) =>
      && level < height <= |levels| && w.nd in bytes
      && (forall j | 0 <= j < level :: w.nd in levels[j].linked)
      && (forall j | level < j < |levels| :: w.nd !in levels[j].linked)
      && SplicesOk(levels, k, k[w.nd], splices, level + 1, true)
    case Added(nd) => |levels| > 0 && nd in levels[0].linked && nd in bytes
    case Exists(nd) => |levels| > 0 && nd in levels[0].linked && nd in bytes
    case Full => true
  }

  ghost predicate OwnNodesOk(s: State) {
    forall t, t' | t in s.threads && t' in s.threads && t != t' && s.threads[t].Adding? && s.threads[t'].Adding? ::
      s.threads[t].insert.nd != s.threads[t'].insert.nd
  }

  ghost predicate Nested(levels: seq<Level>) {
    forall i | 0 <= i < |levels| - 1 :: levels[i + 1].linked <= levels[i].linked
  }

  ghost predicate LevelsInv(s: State) {
    forall i | 0 <= i < |s.levels| :: LevelInv(s.levels[i], RanksOf(s.bytes), At(s, i))
  }

  ghost predicate Inv(s: State) {
    && |s.levels| == MAX_HEIGHT && HEAD !in s.bytes && TAIL !in s.bytes && !s.panicked
    && LevelsInv(s) && Nested(s.levels) && OwnNodesOk(s)
    && forall t | t in s.threads :: ThreadOk(s.bytes, s.levels, s.threads[t])
  }

  // ----- steps that touch no level

  lemma {:induction false} QuietKeepsInv(s: State, t: nat, th: Thread)
    requires Inv(s) && !th.Adding? && ThreadOk(s.bytes, s.levels, th)
    requires t in s.threads ==> !s.threads[t].Adding?
    ensures Inv(Set(s, t, th))
  {
    hide LevelInv, ThreadOk, Nested, RanksOf;
    var s' := Set(s, t, th);
    forall i | 0 <= i < |s.levels| ensures At(s', i) == At(s, i) {}
  }

  /** The goroutine gives its insert up. */
  lemma {:induction false} DropKeepsInv(s: State, t: nat, th: Thread)
    requires Inv(s) && !th.Adding? && ThreadOk(s.bytes, s.levels, th)
    requires t in s.threads && s.threads[t].Adding? && !s.threads[t].insert.pc.Final?
    ensures Inv(Set(s, t, th))
  {
    hide LevelInv, ThreadOk, Nested, RanksOf;
    var s' := Set(s, t, th);
    var i := s.threads[t].level;
    forall j | 0 <= j < |s.levels| ensures LevelInv(s'.levels[j], RanksOf(s'.bytes), At(s', j)) {
      if j == i {
        assert At(s', i) == At(s, i) - {t};
        GiveUpKeepsInv(s.levels[i], RanksOf(s.bytes), At(s, i), t);
      } else {
        assert At(s', j) == At(s, j);
      }
    }
  }

  lemma {:induction false} GiveUpKeepsInv(lv: Level, k: Ranks, ws: Inserts, t: nat)
    requires LevelInv(lv, k, ws) && t in ws && !ws[t].pc.Final?
    ensures LevelInv(lv, k, ws - {t})
  {
    hide ListOk, InsertOk;
    SameDebts(lv, ws, ws - {t});
  }

  lemma {:induction false} LevelList(s: State, i: nat)
    requires Inv(s) && i < |s.levels|
    ensures ListOk(s.levels[i], RanksOf(s.bytes))
  {
  }

  lemma {:induction false} NestedTo(levels: seq<Level>, i: nat, j: nat, a: Id)
    requires Nested(levels) && i <= j < |levels| && a in levels[j].linked
    ensures a in levels[i].linked
  {
    if i < j { NestedTo(levels, i, j - 1, a); }
  }

  /** What reading the link after prev says about the searched key. */
  ghost predicate ReadSays(lv: Level, k: Ranks, prev: Id, n: Id, r: real, look: Look) {
    && prev in lv.next && lv.next[prev] == n && n in lv.linked && lv.linked <= k.Keys && n != HEAD && prev in k
      && k[prev] < k[n]
    && NoneBetween(lv, k, prev, n)
    && (look.Further? <==> k[n] < r) && (look.Equal? <==> k[n] == r) && (look.Past? <==> r < k[n])
    && (!look.Past? ==> n != TAIL)
  }

  lemma {:induction false} Read(s: State, i: nat, prev: Id, key: Bytes)
    requires Inv(s) && i < |s.levels| && prev in s.levels[i].linked && prev != TAIL
    ensures ReadSays(s.levels[i], RanksOf(s.bytes), prev, Next(s, i, prev), Rank(key), LookAt(s, key, Next(s, i, prev)))
    ensures !LookAt(s, key, Next(s, i, prev)).Past? ==> Next(s, i, prev) in s.bytes
  {
    LevelList(s, i);
    ReadOk(s.levels[i], RanksOf(s.bytes), prev);
    var n := Next(s, i, prev);
    if n in s.bytes { RankOrder(key, s.bytes[n]); }
  }

  lemma {:induction false} SeekKeepsInv(s: State, t: nat)
    requires Inv(s) && t in s.threads && s.threads[t].Seeking?
    ensures Inv(SeekStep(s, t))
  {
    hide Inv, ThreadOk, RanksOf;
    SeekThreadOk(s, t);
    QuietKeepsInv(s, t, SeekStep(s, t).threads[t]);
  }

  lemma {:induction false} SeekThreadOk(s: State, t: nat)
    requires Inv(s) && t in s.threads && s.threads[t].Seeking?
    ensures ThreadOk(s.bytes, s.levels, SeekStep(s, t).threads[t])
  {
    hide LevelsInv, OwnNodesOk, RanksOf, NoneBetween, LookAt, Next;
    var th := s.threads[t];
    assert ThreadOk(s.bytes, s.levels, th);
    var k, i := RanksOf(s.bytes), th.level;
    var n := Next(s, i, th.prev);
    Read(s, i, th.prev, th.key);
    match LookAt(s, th.key, n)
    case Further =>
    case Equal =>
      if i == 0 {
        assert n in s.levels[0].linked;
      } else {
        NestedTo(s.levels, i - 1, i, th.prev);
        MoreSplices(s, th, n);
      }
    case Past =>
      MoreSplices(s, th, n);
      if i == 0 {
        MissingOk(s, th, n);
      } else {
        NestedTo(s.levels, i - 1, i, th.prev);
      }
  }

  lemma {:induction false} MoreSplices(s: State, th: Thread, n: Id)
    requires th.Seeking? && ThreadOk(s.bytes, s.levels, th)
    requires ReadSays(s.levels[th.level], RanksOf(s.bytes), th.prev, n, Rank(th.key), LookAt(s, th.key, n))
    requires !LookAt(s, th.key, n).Further?
    ensures SplicesOk(s.levels, RanksOf(s.bytes), Rank(th.key), th.splices[th.level := Splice(th.prev, n)], th.level,
      false)
  {
    hide LookAt, RanksOf, NoneBetween;
  }

  /** A key not found at the base level is in no level, so no splice met it either. */
  lemma {:induction false} MissingOk(s: State, th: Thread, n: Id)
    requires Inv(s) && th.Seeking? && th.level == 0 && ThreadOk(s.bytes, s.levels, th)
    requires ReadSays(s.levels[0], RanksOf(s.bytes), th.prev, n, Rank(th.key), LookAt(s, th.key, n))
    requires LookAt(s, th.key, n).Past?
    requires SplicesOk(s.levels, RanksOf(s.bytes), Rank(th.key), th.splices[0 := Splice(th.prev, n)], 0, false)
    ensures SplicesOk(s.levels, RanksOf(s.bytes), Rank(th.key), th.splices[0 := Splice(th.prev, n)], 0, true)
  {
    hide LevelsInv, OwnNodesOk, RanksOf, LookAt;
    var k, splices := RanksOf(s.bytes), th.splices[0 := Splice(th.prev, n)];
    forall j | 0 <= j < |s.levels| && j in splices ensures SpliceOk(s.levels[j], k, Rank(th.key), splices[j], true) {
      assert SpliceOk(s.levels[j], k, Rank(th.key), splices[j], false);
      NestedTo(s.levels, 0, j, splices[j].next);
    }
  }

  // ----- a new node

  lemma {:induction false} SpliceInsert(lv: Level, k: Ranks, nd: Id, sp: Splice)
    requires ListOk(lv, k) && nd in k && nd !in lv.linked && SpliceOk(lv, k, k[nd], sp, true)
    ensures InsertOk(lv, k, Insert(nd, sp.prev, sp.next, Init))
  {
    assert NextOk(lv, k, sp.prev) && PrevOk(lv, k, sp.next);
  }

  /** Without a splice the insert starts between the head and the tail. */
  lemma {:induction false} NoSplice(lv: Level, k: Ranks, r: real)
    requires ListOk(lv, k) && k[HEAD] < r < k[TAIL]
    ensures SpliceOk(lv, k, r, Splice(HEAD, TAIL), true)
  {
    assert NextOk(lv, k, HEAD);
  }

  lemma {:induction false} StartLevel(s: State, nd: Id, splices: map<nat, Splice>, i: nat)
    requires i < |s.levels| && HEAD !in s.bytes && TAIL !in s.bytes && ListOk(s.levels[i], RanksOf(s.bytes))
    requires nd in s.bytes && nd !in s.levels[i].linked
    requires i in splices ==> SpliceOk(s.levels[i], RanksOf(s.bytes), RanksOf(s.bytes)[nd], splices[i], true)
    ensures InsertOk(s.levels[i], RanksOf(s.bytes), InsertAt(nd, splices, i))
  {
    hide ListOk, SpliceOk;
    if i !in splices { NoSplice(s.levels[i], RanksOf(s.bytes), RanksOf(s.bytes)[nd]); }
    SpliceInsert(s.levels[i], RanksOf(s.bytes), nd, SpliceAt(splices, i));
  }

  lemma {:induction false} BytesGrow(bytes: map<Id, Bytes>, bytes': map<Id, Bytes>, levels: seq<Level>, th: Thread)
    requires bytes.Keys <= bytes'.Keys && (forall id | id in bytes :: bytes'[id] == bytes[id])
    requires ThreadOk(bytes, levels, th)
    ensures ThreadOk(bytes', levels, th)
  {
    hide RanksOf;
    SameRanks(bytes, bytes');
  }

  lemma {:induction false} SameRanks(bytes: map<Id, Bytes>, bytes': map<Id, Bytes>)
    requires bytes.Keys <= bytes'.Keys && forall id | id in bytes :: bytes'[id] == bytes[id]
    ensures RanksOf(bytes).Keys <= RanksOf(bytes').Keys
    ensures forall id | id in RanksOf(bytes) :: RanksOf(bytes')[id] == RanksOf(bytes)[id]
    ensures forall id | id in bytes && id != HEAD && id != TAIL :: RanksOf(bytes)[id] == Rank(bytes[id])
    ensures RanksOf(bytes).Keys == bytes.Keys + {HEAD, TAIL}
  {
  }

  ghost predicate CreateOk(s: State, t: nat, id: Id, height: nat) {
    && t in s.threads && s.threads[t].Missing?
    && id !in s.bytes && id != HEAD && id != TAIL && 1 <= height <= MAX_HEIGHT
  }

  lemma {:induction false} CreateKeepsInv(s: State, t: nat, id: Id, height: nat)
    requires Inv(s) && CreateOk(s, t, id, height)
    ensures Inv(Create(s, t, id, height))
  {
    hide LevelInv, ThreadOk, RanksOf, Nested;
    var s', th := Create(s, t, id, height), s.threads[t];
    var w := InsertAt(id, th.splices, 0);
    SameRanks(s.bytes, s'.bytes);
    forall i | 0 <= i < |s.levels| ensures LevelInv(s.levels[i], RanksOf(s'.bytes), At(s', i)) {
      RanksGrow(s.levels[i], RanksOf(s.bytes), RanksOf(s'.bytes), At(s, i));
      if i == 0 {
        assert At(s', 0) == At(s, 0)[t := w];
        CreateInsertOk(s, t, id, height);
        forall t' | t' in At(s, 0) ensures At(s, 0)[t'].nd != id { OwnBytes(s, t'); }
        MoveKeepsInv(s.levels[0], RanksOf(s'.bytes), At(s, 0), t, w);
      } else {
        assert At(s', i) == At(s, i);
      }
    }
    forall t' | t' in s.threads && t' != t ensures ThreadOk(s'.bytes, s'.levels, s'.threads[t']) {
      BytesGrow(s.bytes, s'.bytes, s.levels, s.threads[t']);
    }
    forall t' | t' in s.threads && t' != t && s.threads[t'].Adding? ensures s.threads[t'].insert.nd != id {
      OwnBytes(s, t');
    }
    CreateInsertOk(s, t, id, height);
  }

  lemma {:induction false} OwnBytes(s: State, t: nat)
    requires Inv(s) && t in s.threads && s.threads[t].Adding?
    ensures s.threads[t].insert.nd in s.bytes
  {
    assert ThreadOk(s.bytes, s.levels, s.threads[t]);
  }

  lemma {:induction false} CreateInsertOk(s: State, t: nat, id: Id, height: nat)
    requires Inv(s) && CreateOk(s, t, id, height)
    ensures var s' := Create(s, t, id, height);
            InsertOk(s.levels[0], RanksOf(s'.bytes), InsertAt(id, s.threads[t].splices, 0))
            && ThreadOk(s'.bytes, s'.levels, s'.threads[t])
  {
    hide LevelInv, RanksOf, Nested, InsertOk, ListOk, SpliceOk;
    var s', th := Create(s, t, id, height), s.threads[t];
    assert ThreadOk(s.bytes, s.levels, th);
    BytesGrow(s.bytes, s'.bytes, s.levels, th);
    SameRanks(s.bytes, s'.bytes);
    SameRanks(s'.bytes, s'.bytes);
    forall i | 0 <= i < |s.levels| ensures ListOk(s.levels[i], RanksOf(s'.bytes)) && id !in s.levels[i].linked {
      RanksGrow(s.levels[i], RanksOf(s.bytes), RanksOf(s'.bytes), At(s, i));
      JustList(s.levels[i], RanksOf(s.bytes), RanksOf(s'.bytes), At(s, i), id);
    }
    StartLevel(s', id, th.splices, 0);
  }

  lemma {:induction false} JustList(lv: Level, k: Ranks, k': Ranks, ws: Inserts, id: Id)
    requires LevelInv(lv, k, ws) && LevelInv(lv, k', ws) && id !in k
    ensures ListOk(lv, k') && id !in lv.linked
  {
  }

  // ----- a step on a level

  lemma {:induction false} SpliceStable(lv: Level, lv': Level, k: Ranks, nd: Id, r: real, sp: Splice, strict: bool)
    requires SpliceOk(lv, k, r, sp, strict) && Grown(lv, lv', k, nd)
    ensures SpliceOk(lv', k, r, sp, strict)
  {
    assert sp.prev in lv'.next;
  }

  /** Other goroutines keep what they rely on when a level grows by a node that is not theirs. */
  lemma {:induction false} ThreadStable(bytes: map<Id, Bytes>, levels: seq<Level>, i: nat, lv': Level, nd: Id,
                                        th: Thread)
    requires i < |levels| && ThreadOk(bytes, levels, th) && Grown(levels[i], lv', RanksOf(bytes), nd)
    requires th.Adding? ==> th.insert.nd != nd
    ensures ThreadOk(bytes, levels[i := lv'], th)
  {
    hide RanksOf, SpliceOk;
    var k, levels' := RanksOf(bytes), levels[i := lv'];
    SameRanks(bytes, bytes);
    if !th.Added? && !th.Exists? && !th.Full? {
      var r := if th.Adding? then k[th.insert.nd] else Rank(th.key);
      var strict := !th.Seeking?;
      var from := if th.Missing? then 0 else th.level + 1;
      SplicesStable(levels, i, lv', k, nd, r, th.splices, from, strict);
    }
  }

  lemma {:induction false} SplicesStable(levels: seq<Level>, i: nat, lv': Level, k: Ranks, nd: Id, r: real,
                                         splices: map<nat, Splice>,
                                         from: nat, strict: bool)
    requires i < |levels| && SplicesOk(levels, k, r, splices, from, strict) && Grown(levels[i], lv', k, nd)
    ensures SplicesOk(levels[i := lv'], k, r, splices, from, strict)
  {
    hide SpliceOk, Grown;
    forall j | from <= j < |levels| && j in splices ensures SpliceOk(levels[i := lv'][j], k, r, splices[j], strict) {
      assert SpliceOk(levels[j], k, r, splices[j], strict);
      if j == i { SpliceStable(levels[i], lv', k, nd, r, splices[i], strict); }
    }
  }

  ghost predicate OnLevel(s: State, t: nat) {
    t in s.threads && s.threads[t].Adding? && s.threads[t].level < |s.levels|
  }

  lemma {:induction false} OnLevelOk(s: State, t: nat)
    requires Inv(s) && t in s.threads && s.threads[t].Adding?
    ensures OnLevel(s, t) && ThreadOk(s.bytes, s.levels, s.threads[t])
    ensures var i := s.threads[t].level; var lv, k := s.levels[i], RanksOf(s.bytes);
            t in At(s, i) && At(s, i)[t] == s.threads[t].insert && LevelInv(lv, k, At(s, i))
            && ListOk(lv, k) && InsertOk(lv, k, s.threads[t].insert)
              && Grown(lv, NewLevel(lv, s.threads[t].insert), k, s.threads[t].insert.nd)
  {
    hide RanksOf, NewLevel, ListOk, InsertOk, BackLinks, Grown;
    assert ThreadOk(s.bytes, s.levels, s.threads[t]);
    var i := s.threads[t].level;
    assert LevelInv(s.levels[i], RanksOf(s.bytes), At(s, i)) && t in At(s, i);
    LevelParts(s.levels[i], RanksOf(s.bytes), At(s, i), t);
    StepGrows(s.levels[i], RanksOf(s.bytes), s.threads[t].insert);
  }

  /** The levels stay nested: a node is linked upwards only after it is linked below. */
  lemma {:induction false} NestedStable(s: State, t: nat)
    requires Inv(s) && OnLevel(s, t)
    ensures var i := s.threads[t].level; Nested(s.levels[i := NewLevel(s.levels[i], s.threads[t].insert)])
  {
    hide RanksOf, NewLevel, ListOk, InsertOk, LevelInv;
    OnLevelOk(s, t);
    var i, w := s.threads[t].level, s.threads[t].insert;
    var levels' := s.levels[i := NewLevel(s.levels[i], w)];
    forall j | 0 <= j < |levels'| - 1 ensures levels'[j + 1].linked <= levels'[j].linked {
      if j + 1 == i { assert w.nd in s.levels[j].linked; }
    }
  }

  /** An access that stays on the level. */
  lemma {:induction false} StayKeepsInv(s: State, t: nat)
    requires Inv(s) && OnLevel(s, t) && !s.threads[t].insert.pc.Final? && !s.threads[t].insert.pc.ReSeek?
    ensures Inv(AddStep(s, t))
  {
    hide LevelInv, RanksOf, ThreadOk, NewLevel, NewPc, ListOk, InsertOk, Nested, Grown;
    OnLevelOk(s, t);
    NestedStable(s, t);
    var th := s.threads[t];
    var i, w, k := th.level, th.insert, RanksOf(s.bytes);
    var s' := AddStep(s, t);
    SkiplistLevel.StepKeepsInv(s.levels[i], k, At(s, i), t);
    assert At(s', i) == At(s, i)[t := w.(pc := NewPc(s.levels[i], w))];
    forall j | 0 <= j < |s.levels| && j != i ensures At(s', j) == At(s, j) {}
    OthersStable(s, t);
    OwnStable(s, t, s'.threads[t]);
  }

  lemma {:induction false} OthersStable(s: State, t: nat)
    requires Inv(s) && OnLevel(s, t)
    ensures var i := s.threads[t].level; var levels' := s.levels[i := NewLevel(s.levels[i], s.threads[t].insert)];
            forall t' | t' in s.threads && t' != t :: ThreadOk(s.bytes, levels', s.threads[t'])
  {
    hide LevelInv, RanksOf, ThreadOk, NewLevel, Nested, Grown, ListOk, InsertOk;
    OnLevelOk(s, t);
    var i, w := s.threads[t].level, s.threads[t].insert;
    forall t' | t' in s.threads && t' != t ensures ThreadOk(s.bytes, s.levels[i := NewLevel(s.levels[i], w)],
      s.threads[t']) {
      assert ThreadOk(s.bytes, s.levels, s.threads[t']);
      ThreadStable(s.bytes, s.levels, i, NewLevel(s.levels[i], w), w.nd, s.threads[t']);
    }
  }

  lemma {:induction false} OwnStable(s: State, t: nat, th': Thread)
    requires Inv(s) && OnLevel(s, t) && th'.Adding? && th' == s.threads[t].(insert := th'.insert)
    requires th'.insert.nd == s.threads[t].insert.nd
    ensures var i := s.threads[t].level; ThreadOk(s.bytes, s.levels[i := NewLevel(s.levels[i], s.threads[t].insert)],
      th')
  {
    hide LevelInv, RanksOf, NewLevel, Nested, ListOk, InsertOk, SplicesOk;
    OnLevelOk(s, t);
    var th := s.threads[t];
    var i, w, k := th.level, th.insert, RanksOf(s.bytes);
    SameRanks(s.bytes, s.bytes);
    SplicesStable(s.levels, i, NewLevel(s.levels[i], w), k, w.nd, k[w.nd], th.splices, i + 1, true);
  }

  /** The last access on a level: up to the next one, or done. */
  lemma {:induction false} FinalStepKeepsInv(s: State, t: nat)
    requires Inv(s) && OnLevel(s, t) && s.threads[t].insert.pc.Final?
    ensures Inv(AddStep(s, t))
  {
    hide LevelInv, RanksOf, ThreadOk, NewLevel, ListOk, InsertOk, Nested, Grown, InsertAt, At;
    OnLevelOk(s, t);
    NestedStable(s, t);
    FinalThreadOk(s, t);
    OthersStable(s, t);
    InsertAtIs(s.threads[t].insert.nd, s.threads[t].splices, s.threads[t].level + 1);
    forall j | 0 <= j < |s.levels| ensures LevelInv(AddStep(s, t).levels[j], RanksOf(s.bytes), At(AddStep(s, t), j)) {
      FinalLevelInv(s, t, j);
    }
  }

  lemma {:induction false} FinalLevelInv(s: State, t: nat, j: nat)
    requires Inv(s) && OnLevel(s, t) && s.threads[t].insert.pc.Final? && j < |s.levels|
    ensures LevelInv(AddStep(s, t).levels[j], RanksOf(s.bytes), At(AddStep(s, t), j))
  {
    hide LevelInv, RanksOf, ThreadOk, NewLevel, ListOk, InsertOk, Nested, Grown, InsertAt;
    OnLevelOk(s, t);
    var th, s' := s.threads[t], AddStep(s, t);
    var i, w, k := th.level, th.insert, RanksOf(s.bytes);
    if j == i {
      FinalKeepsInv(s.levels[i], k, At(s, i), t);
      assert At(s', i) == At(s, i) - {t};
    } else if j == i + 1 && j < th.height {
      FinalThreadOk(s, t);
      InsertAtIs(w.nd, th.splices, j);
      assert At(s', j) == At(s, j)[t := InsertAt(w.nd, th.splices, j)];
      OtherNodes(s, t, j);
      MoveKeepsInv(s.levels[j], k, At(s, j), t, InsertAt(w.nd, th.splices, j));
    } else {
      assert At(s', j) == At(s, j);
    }
  }

  lemma {:induction false} OtherNodes(s: State, t: nat, j: nat)
    requires OwnNodesOk(s) && t in s.threads && s.threads[t].Adding? && s.threads[t].level != j
    ensures t !in At(s, j) && forall t' | t' in At(s, j) :: At(s, j)[t'].nd != s.threads[t].insert.nd
  {
  }

  lemma {:induction false} InsertAtIs(nd: Id, splices: map<nat, Splice>, level: nat)
    ensures InsertAt(nd, splices, level).nd == nd && InsertAt(nd, splices, level).pc == Init
  {
  }

  lemma {:induction false} FinalThreadOk(s: State, t: nat)
    requires Inv(s) && OnLevel(s, t) && s.threads[t].insert.pc.Final?
    ensures ThreadOk(s.bytes, AddStep(s, t).levels, AddStep(s, t).threads[t])
    ensures var th := s.threads[t]; var i, w := th.level, th.insert;
            i + 1 < th.height ==>
              && i + 1 < |s.levels|
              && InsertOk(s.levels[i + 1], RanksOf(s.bytes), InsertAt(w.nd, th.splices, i + 1))
  {
    hide RanksOf, NewLevel, ListOk, SpliceOk, Nested, LevelInv, InsertOk, InsertAt, Grown, LevelsInv, OwnNodesOk;
    OnLevelOk(s, t);
    var th := s.threads[t];
    var i, w, k := th.level, th.insert, RanksOf(s.bytes);
    FinalLinked(s.levels[i], k, w);
    OwnStable(s, t, th);
    InsertAtIs(w.nd, th.splices, i + 1);
    if i + 1 < th.height {
      LevelList(s, i + 1);
      StartLevel(s, w.nd, th.splices, i + 1);
      UpOk(s.bytes, AddStep(s, t).levels, th, InsertAt(w.nd, th.splices, i + 1));
    } else {
      NestedStable(s, t);
      NestedTo(s.levels[i := NewLevel(s.levels[i], w)], 0, i, w.nd);
    }
  }

  lemma {:induction false} UpOk(bytes: map<Id, Bytes>, levels: seq<Level>, th: Thread, w: Insert)
    requires th.Adding? && ThreadOk(bytes, levels, th) && th.level + 1 < th.height
    requires th.insert.nd in levels[th.level].linked
    requires w.nd == th.insert.nd
    ensures ThreadOk(bytes, levels, th.(level := th.level + 1, insert := w))
  {
    hide RanksOf, SpliceOk;
  }

  lemma {:induction false} FinalLinked(lv: Level, k: Ranks, w: Insert)
    requires InsertOk(lv, k, w) && w.pc.Final?
    ensures w.nd in lv.linked && w.nd in NewLevel(lv, w).linked
  {
  }

  // ----- the repeated search

  lemma {:induction false} ReSeekKeepsInv(s: State, t: nat)
    requires Inv(s) && OnLevel(s, t) && s.threads[t].insert.pc.ReSeek?
    ensures Inv(AddStep(s, t))
  {
    hide Inv, RanksOf, ThreadOk, LookAt, Next;
    var th := s.threads[t];
    var i, w := th.level, th.insert;
    ReSeekRead(s, t);
    var n := Next(s, i, w.prev);
    match LookAt(s, s.bytes[w.nd], n)
    case Further => InPlaceKeepsInv(s, t, w.(prev := n));
    case Equal => DropKeepsInv(s, t, Exists(n));
    case Past => InPlaceKeepsInv(s, t, Insert(w.nd, w.prev, n, Init));
  }

  /** The repeated search reads a sound link; at an upper level it cannot meet its own key. */
  lemma {:induction false} ReSeekRead(s: State, t: nat)
    requires Inv(s) && OnLevel(s, t) && s.threads[t].insert.pc.ReSeek?
    ensures var th := s.threads[t]; var i, w := th.level, th.insert; var n := Next(s, i, w.prev);
            w.nd in s.bytes
            && (LookAt(s, s.bytes[w.nd], n).Further? ==> InsertOk(s.levels[i], RanksOf(s.bytes), w.(prev := n)))
            && (LookAt(s, s.bytes[w.nd], n).Past? ==>
              InsertOk(s.levels[i], RanksOf(s.bytes), Insert(w.nd, w.prev, n, Init)))
            && (LookAt(s, s.bytes[w.nd], n).Equal? ==> i == 0 && ThreadOk(s.bytes, s.levels, Exists(n)))
  {
    hide RanksOf, LookAt, Next, LevelInv, ListOk, InsertOk, ReadSays, Inv, SplicesOk;
    OnLevelOk(s, t);
    var th := s.threads[t];
    var i, w, k := th.level, th.insert, RanksOf(s.bytes);
    var n := Next(s, i, w.prev);
    SameRanks(s.bytes, s.bytes);
    SeekFrom(s.levels[i], k, w);
    Sentinels(s);
    Read(s, i, w.prev, s.bytes[w.nd]);
    ReadInserts(s.levels[i], k, w, n, LookAt(s, s.bytes[w.nd], n));
    if LookAt(s, s.bytes[w.nd], n).Equal? {
      if i > 0 { NoOwnKeyAbove(s, w.nd, n, i); }
    }
  }

  lemma {:induction false} Sentinels(s: State)
    requires Inv(s)
    ensures HEAD !in s.bytes && TAIL !in s.bytes
  {
  }

  lemma {:induction false} SeekFrom(lv: Level, k: Ranks, w: Insert)
    requires InsertOk(lv, k, w) && w.pc.ReSeek?
    ensures w.prev in lv.linked && w.prev != TAIL && w.nd in k && w.nd !in lv.linked
  {
  }

  lemma {:induction false} ReadInserts(lv: Level, k: Ranks, w: Insert, n: Id, look: Look)
    requires ListOk(lv, k) && InsertOk(lv, k, w) && w.pc.ReSeek? && ReadSays(lv, k, w.prev, n, k[w.nd], look)
    ensures look.Further? ==> InsertOk(lv, k, w.(prev := n))
    ensures look.Past? ==> InsertOk(lv, k, Insert(w.nd, w.prev, n, Init))
    ensures look.Equal? ==> n in lv.linked && n in k && k[n] == k[w.nd]
  {
    if n != TAIL { assert NextOk(lv, k, n); }
    assert PrevOk(lv, k, n);
  }

  /** Two linked nodes with one key are one node. */
  lemma {:induction false} NoOwnKeyAbove(s: State, nd: Id, n: Id, i: nat)
    requires Inv(s) && 0 < i < |s.levels| && n in s.levels[i].linked && nd in s.levels[0].linked
    requires nd in RanksOf(s.bytes) && n in RanksOf(s.bytes) && RanksOf(s.bytes)[nd] == RanksOf(s.bytes)[n]
    ensures nd in s.levels[i].linked
  {
    hide RanksOf, LevelsInv;
    NestedTo(s.levels, 0, i, n);
    LevelList(s, 0);
  }

  lemma {:induction false} InPlaceKeepsInv(s: State, t: nat, w: Insert)
    requires Inv(s) && OnLevel(s, t) && s.threads[t].insert.pc.ReSeek? && w.nd == s.threads[t].insert.nd && !w.pc.Final?
    requires InsertOk(s.levels[s.threads[t].level], RanksOf(s.bytes), w)
    ensures Inv(Set(s, t, s.threads[t].(insert := w)))
  {
    hide LevelInv, RanksOf, ThreadOk, ListOk, InsertOk, Nested;
    OnLevelOk(s, t);
    var th := s.threads[t];
    var i, s' := th.level, Set(s, t, th.(insert := w));
    MoveKeepsInv(s.levels[i], RanksOf(s.bytes), At(s, i), t, w);
    assert At(s', i) == At(s, i)[t := w];
    forall j | 0 <= j < |s.levels| && j != i ensures At(s', j) == At(s, j) {}
    SameNode(s.bytes, s.levels, th, w);
  }

  lemma {:induction false} SameNode(bytes: map<Id, Bytes>, levels: seq<Level>, th: Thread, w: Insert)
    requires th.Adding? && ThreadOk(bytes, levels, th) && w.nd == th.insert.nd
    ensures ThreadOk(bytes, levels, th.(insert := w))
  {
  }

  // ----- runs

  datatype Event =
    | Begins(t: nat, key: Bytes, top: nat)
    | Seeks(t: nat)
    | Creates(t: nat, id: Id, height: nat)
    | Fails(t: nat)
    | Adds(t: nat)

  ghost predicate Enabled(s: State, e: Event) {
    match e
    case Begins(t, key, top) => top < MAX_HEIGHT && (t in s.threads ==> Finished(s.threads[t]))
    case Seeks(t) => t in s.threads && s.threads[t].Seeking?
    case Creates(t, id, height) => CreateOk(s, t, id, height)
    case Fails(t) => t in s.threads && s.threads[t].Missing?
    case Adds(t) => OnLevel(s, t)
  }

  predicate Finished(th: Thread) { th.Added? || th.Exists? || th.Full? }

  ghost function Step(s: State, e: Event): State
    requires Enabled(s, e)
  {
    match e
    case Begins(t, key, top) => Begin(s, t, key, top)
    case Seeks(t) => SeekStep(s, t)
    case Creates(t, id, height) => Create(s, t, id, height)
    case Fails(t) => Set(s, t, Full)
    case Adds(t) => AddStep(s, t)
  }

  function EmptyLevel(): Level { Level({HEAD, TAIL}, map[HEAD := TAIL], map[TAIL := HEAD]) }

  /** NewSkiplist: on every level the head is linked to the tail. */
  function Start(): State { State(map[], seq(MAX_HEIGHT, _ => EmptyLevel()), map[], false) }

  ghost predicate IsRun(states: seq<State>, events: seq<Event>) {
    && |states| == |events| + 1 && states[0] == Start()
    && forall i | 0 <= i < |events| :: Enabled(states[i], events[i]) && states[i + 1] == Step(states[i], events[i])
  }

  lemma {:induction false} StartInv()
    ensures Inv(Start())
  {
    hide LevelInv;
    var s := Start();
    forall i | 0 <= i < |s.levels| ensures LevelInv(s.levels[i], RanksOf(s.bytes), At(s, i)) {
      assert At(s, i) == map[];
      EmptyLevelInv(RanksOf(s.bytes));
    }
  }

  lemma {:induction false} EmptyLevelInv(k: Ranks)
    requires HEAD in k && TAIL in k && k[HEAD] < k[TAIL]
    ensures LevelInv(EmptyLevel(), k, map[])
  {
  }

  lemma {:induction false} BeginKeepsInv(s: State, t: nat, key: Bytes, top: nat)
    requires Inv(s) && Enabled(s, Begins(t, key, top))
    ensures Inv(Begin(s, t, key, top))
  {
    hide Inv;
    HeadLinked(s, top);
    QuietKeepsInv(s, t, Seeking(key, top, HEAD, map[]));
  }

  lemma {:induction false} HeadLinked(s: State, i: nat)
    requires Inv(s) && i < MAX_HEIGHT
    ensures |s.levels| == MAX_HEIGHT && HEAD in s.levels[i].linked
  {
    LevelList(s, i);
  }

  lemma {:induction false} EventKeepsInv(s: State, e: Event)
    requires Inv(s) && Enabled(s, e)
    ensures Inv(Step(s, e))
  {
    hide Inv, ThreadOk;
    match e
    case Begins(t, key, top) => BeginKeepsInv(s, t, key, top);
    case Seeks(t) => SeekKeepsInv(s, t);
    case Creates(t, id, height) => CreateKeepsInv(s, t, id, height);
    case Fails(t) => FullOk(s); QuietKeepsInv(s, t, Full);
    case Adds(t) =>
      if s.threads[t].insert.pc.Final? { FinalStepKeepsInv(s, t); }
      else if s.threads[t].insert.pc.ReSeek? { ReSeekKeepsInv(s, t); }
      else { StayKeepsInv(s, t); }
  }

  lemma {:induction false} FullOk(s: State)
    ensures ThreadOk(s.bytes, s.levels, Full)
  {
  }

  lemma {:induction false} RunKeepsInv(states: seq<State>, events: seq<Event>, n: nat)
    requires IsRun(states, events) && n < |states|
    ensures Inv(states[n])
  {
    hide Inv, Enabled, Step;
    if n == 0 {
      StartInv();
    } else {
      RunKeepsInv(states, events, n - 1);
      EventKeepsInv(states[n - 1], events[n - 1]);
    }
  }

  // ----- what every interleaving keeps

  /** The nodes after a, following next links to the tail. */
  ghost function Walk(lv: Level, k: Ranks, a: Id): seq<Id>
    requires ListOk(lv, k) && a in lv.linked
    decreases Above(lv, k, a)
  {
    if a == TAIL then [TAIL]
    else
      ReadOk(lv, k, a);
      AboveShrinks(lv, k, a, lv.next[a]);
      [a] + Walk(lv, k, lv.next[a])
  }

  ghost function Above(lv: Level, k: Ranks, a: Id): set<Id>
    requires lv.linked <= k.Keys && a in k
  {
    set c | c in lv.linked && k[c] > k[a]
  }

  lemma {:induction false} AboveShrinks(lv: Level, k: Ranks, a: Id, b: Id)
    requires lv.linked <= k.Keys && a in lv.linked && b in lv.linked && k[a] < k[b]
    ensures Above(lv, k, b) < Above(lv, k, a)
  {
    assert b in Above(lv, k, a) && b !in Above(lv, k, b);
  }

  /** A walk from a meets every linked node from a on, each once, in strictly ascending order. */
  lemma {:induction false} WalkSorted(lv: Level, k: Ranks, a: Id)
    requires ListOk(lv, k) && a in lv.linked
    ensures var w := Walk(lv, k, a);
            && w != [] && w[0] == a
            && (forall c :: c in w <==> c in lv.linked && k[c] >= k[a])
            && (forall i, j | 0 <= i < j < |w| :: w[i] in k && w[j] in k && k[w[i]] < k[w[j]])
            && (forall i | 0 <= i < |w| - 1 :: w[i] in lv.next && lv.next[w[i]] == w[i + 1])
    decreases Above(lv, k, a)
  {
    if a == TAIL {
      forall c | c in lv.linked && k[c] >= k[TAIL] ensures c == TAIL {}
    } else {
      ReadOk(lv, k, a);
      var b := lv.next[a];
      AboveShrinks(lv, k, a, b);
      WalkSorted(lv, k, b);
      var w, rest := Walk(lv, k, a), Walk(lv, k, b);
      assert w == [a] + rest;
      forall c | c in lv.linked && k[c] >= k[a] ensures c in w {
        if c != a { assert c in rest; }
      }
      forall i, j | 0 <= i < j < |w| ensures w[i] in k && w[j] in k && k[w[i]] < k[w[j]] {
        assert w[j] == rest[j - 1] && rest[j - 1] in rest;
        if i > 0 { assert w[i] == rest[i - 1]; }
      }
    }
  }

  /** Each level, walked from its head, is its linked nodes in strictly ascending key order. */
  lemma {:induction false} LevelsStaySorted(states: seq<State>, events: seq<Event>, n: nat, i: nat)
    requires IsRun(states, events) && n < |states| && i < MAX_HEIGHT
    ensures var s := states[n]; var k := RanksOf(s.bytes);
            && |s.levels| == MAX_HEIGHT && ListOk(s.levels[i], k) && HEAD in s.levels[i].linked
            && (forall c :: c in Walk(s.levels[i], k, HEAD) <==> c in s.levels[i].linked)
            && (var w := Walk(s.levels[i], k, HEAD);
                forall x, y | 0 <= x < y < |w| :: w[x] in k && w[y] in k && k[w[x]] < k[w[y]])
  {
    hide IsRun, Inv, RanksOf;
    RunKeepsInv(states, events, n);
    HeadLinked(states[n], i);
    LevelList(states[n], i);
    WalkSorted(states[n].levels[i], RanksOf(states[n].bytes), HEAD);
    AllAboveHead(states[n].levels[i], RanksOf(states[n].bytes));
  }

  lemma {:induction false} AllAboveHead(lv: Level, k: Ranks)
    requires ListOk(lv, k)
    ensures forall c | c in lv.linked :: k[c] >= k[HEAD]
  {
  }

  /** Every node of a level is a node of the base level, and no two nodes there have the same key. */
  lemma {:induction false} SubsetOfBase(states: seq<State>, events: seq<Event>, n: nat, i: nat, a: Id, b: Id)
    requires IsRun(states, events) && n < |states| && i < |states[n].levels| && a in states[n].levels[i].linked
    ensures a in states[n].levels[0].linked
    ensures b in states[n].levels[0].linked && a in states[n].bytes && b in states[n].bytes ==>
              states[n].bytes[a] == states[n].bytes[b] ==> a == b
  {
    hide IsRun;
    RunKeepsInv(states, events, n);
    NestedTo(states[n].levels, 0, i, a);
    LevelList(states[n], 0);
  }

  /** The panic of the repeated search above the base level is not reached. */
  lemma {:induction false} NeverPanics(states: seq<State>, events: seq<Event>, n: nat)
    requires IsRun(states, events) && n < |states|
    ensures !states[n].panicked
  {
    hide IsRun;
    RunKeepsInv(states, events, n);
  }

  lemma {:induction false} StepKeepsNodes(s: State, e: Event, i: nat)
    requires Inv(s) && Enabled(s, e) && i < |s.levels|
    ensures |Step(s, e).levels| == |s.levels| && s.levels[i].linked <= Step(s, e).levels[i].linked
  {
    hide LevelInv, ThreadOk, RanksOf, NewLevel;
    if e.Adds? { OnLevelOk(s, e.t); }
  }

  /** A node once linked on a level stays linked there. */
  lemma {:induction false} NodesAreNeverLost(states: seq<State>, events: seq<Event>, m: nat, n: nat, i: nat)
    requires IsRun(states, events) && m <= n < |states| && i < MAX_HEIGHT
    ensures |states[m].levels| == |states[n].levels| == MAX_HEIGHT
    ensures states[m].levels[i].linked <= states[n].levels[i].linked
  {
    hide Step, Enabled, LevelInv, LevelsInv, ThreadOk;
    RunKeepsInv(states, events, m);
    if m < n {
      NodesAreNeverLost(states, events, m, n - 1, i);
      RunKeepsInv(states, events, n - 1);
      StepKeepsNodes(states[n - 1], events[n - 1], i);
    }
  }

  /** When no insert is in progress on a level, its prev links are exactly the reverse of its next links. */
  lemma {:induction false} QuiescentBackLinks(states: seq<State>, events: seq<Event>, n: nat, i: nat, a: Id, b: Id)
    requires IsRun(states, events) && n < |states| && i < |states[n].levels|
    requires forall t | t in states[n].threads :: !states[n].threads[t].Adding? || states[n].threads[t].level != i
    requires a in states[n].levels[i].linked && a != TAIL && b in states[n].levels[i].linked && b != HEAD
    ensures a in states[n].levels[i].next && b in states[n].levels[i].prev
    ensures states[n].levels[i].next[a] == b <==> states[n].levels[i].prev[b] == a
  {
    hide IsRun, RanksOf, InsertOk;
    RunKeepsInv(states, events, n);
    var lv, k := states[n].levels[i], RanksOf(states[n].bytes);
    assert At(states[n], i) == map[];
    assert LevelInv(lv, k, map[]);
    QuietLevel(lv, k, a, b);
  }

  lemma {:induction false} QuietLevel(lv: Level, k: Ranks, a: Id, b: Id)
    requires LevelInv(lv, k, map[]) && a in lv.linked && a != TAIL && b in lv.linked && b != HEAD
    ensures a in lv.next && b in lv.prev && (lv.next[a] == b <==> lv.prev[b] == a)
  {
    var c := PredecessorOf(lv, k, b);
    assert NextOk(lv, k, a) && PrevOk(lv, k, b) && NextOk(lv, k, c);
    assert BackOk(lv, map[], a) && BackOk(lv, map[], c);
    assert PrevOk(lv, k, lv.next[a]);
  }

  lemma {:induction false} PredecessorOf(lv: Level, k: Ranks, b: Id) returns (c: Id)
    requires ListOk(lv, k) && b in lv.linked && b != HEAD
    ensures c in lv.linked && c != TAIL && c in lv.next && lv.next[c] == b
  {
    WalkSorted(lv, k, HEAD);
    AllAboveHead(lv, k);
    var w := Walk(lv, k, HEAD);
    assert b in w;
    var j :| 0 <= j < |w| && w[j] == b;
    c := w[j - 1];
    assert lv.next[w[j - 1]] == w[j] && c in w;
    assert k[w[j - 1]] < k[w[j]] <= k[TAIL];
  }

  lemma {:induction false} BetweenNone(lv: Level, k: Ranks, a: Id, b: Id, c: Id)
    requires lv.linked <= k.Keys && a in k && b in k && NoneBetween(lv, k, a, b) && c in lv.linked
    ensures !(k[a] < k[c] < k[b])
  {
  }

  /** A search's last read decides it as of that moment: the key is in the list exactly if it was found. */
  lemma {:induction false} SearchAnswers(s: State, t: nat)
    requires Inv(s) && t in s.threads && s.threads[t].Seeking? && s.threads[t].level == 0
    ensures var th, th' := s.threads[t], SeekStep(s, t).threads[t];
            && (th'.Exists? ==> th'.node in s.levels[0].linked && th'.node in s.bytes && s.bytes[th'.node] == th.key)
            && (th'.Missing? ==> forall a | a in s.levels[0].linked && a in s.bytes :: s.bytes[a] != th.key)
            && (th'.Exists? || th'.Missing? || (th'.Seeking? && th'.level == 0))
  {
    hide LevelsInv, RanksOf, NoneBetween;
    var th := s.threads[t];
    SameRanks(s.bytes, s.bytes);
    assert ThreadOk(s.bytes, s.levels, th);
    Read(s, 0, th.prev, th.key);
    var n, k := Next(s, 0, th.prev), RanksOf(s.bytes);
    if LookAt(s, th.key, n).Past? {
      forall a | a in s.levels[0].linked && a in s.bytes ensures s.bytes[a] != th.key {
        BetweenNone(s.levels[0], k, th.prev, n, a);
      }
    }
  }

  // ----- what an add has done

  /** Goroutine t is at work on key, or has found or added a node with it. */
  ghost predicate WorksOn(s: State, t: nat, key: Bytes) {
    && t in s.threads
    && match s.threads[t]
       case Seeking(k, _, _, _) => k == key
       case Missing(k, _) => k == key
       case Adding(_, _, w, _) => w.nd in s.bytes && s.bytes[w.nd] == key
       case Added(nd) => nd in s.bytes && s.bytes[nd] == key
       case Exists(nd) => nd in s.bytes && s.bytes[nd] == key
       case Full => true
  }

  lemma {:induction false} StepWorksOn(s: State, e: Event, t: nat, key: Bytes)
    requires Enabled(s, e) && WorksOn(s, t, key) && !(e.Begins? && e.t == t)
    ensures WorksOn(Step(s, e), t, key)
  {
    hide NewLevel, NewPc, Less, SpliceAt, Next;
  }

  ghost predicate NoBegin(events: seq<Event>, t: nat, m: nat, n: nat) {
    forall i | m <= i < n && i < |events| :: !(events[i].Begins? && events[i].t == t)
  }

  /** In every interleaving an add that is finished and not full has left a node with its key in the list. */
  lemma {:induction false} AddAnswers(states: seq<State>, events: seq<Event>, m: nat, n: nat, t: nat, key: Bytes)
    requires IsRun(states, events) && m < n < |states| && events[m].Begins? && events[m].t == t && events[m].key == key
    requires NoBegin(events, t, m + 1, n)
    ensures WorksOn(states[n], t, key)
    ensures var th := states[n].threads[t];
            th.Added? || th.Exists? ==> |states[n].levels| > 0 && th.node in states[n].levels[0].linked
  {
    hide Step, Enabled, Inv, WorksOn;
    RunKeepsInv(states, events, n);
    if n == m + 1 {
      BeginsOn(states[m], events[m]);
    } else {
      AddAnswers(states, events, m, n - 1, t, key);
      StepWorksOn(states[n - 1], events[n - 1], t, key);
    }
    FinishedAt(states[n], t, key);
  }

  lemma {:induction false} BeginsOn(s: State, e: Event)
    requires Enabled(s, e) && e.Begins?
    ensures WorksOn(Step(s, e), e.t, e.key)
  {
  }

  lemma {:induction false} FinishedAt(s: State, t: nat, key: Bytes)
    requires Inv(s) && WorksOn(s, t, key)
    ensures t in s.threads
    ensures var th := s.threads[t];
            th.Added? || th.Exists? ==> |s.levels| > 0 && th.node in s.levels[0].linked
  {
    hide LevelsInv, Nested, OwnNodesOk, RanksOf;
  }

  /** The node that t made is its own. Added, it is linked on exactly the levels of its tower; beaten, on none. */
  ghost predicate Towers(s: State, t: nat, id: Id, height: nat) {
    && t in s.threads && id in s.bytes && NobodyElse(s, t, id)
    && match s.threads[t]
       case Adding(h, _, w, _) => h == height && w.nd == id
       case Added(nd) => nd == id && LinkedBelow(s, id, height)
       case Exists(_) => LinkedBelow(s, id, 0)
       case _ => false
  }

  ghost predicate NobodyElse(s: State, t: nat, id: Id) {
    forall x | x in s.threads && x != t && s.threads[x].Adding? :: s.threads[x].insert.nd != id
  }

  ghost predicate LinkedBelow(s: State, id: Id, height: nat) {
    forall i | 0 <= i < |s.levels| :: id in s.levels[i].linked <==> i < height
  }

  /** A step links no node but that of its own goroutine. */
  lemma {:induction false} LinksOwn(s: State, e: Event, t: nat, id: Id, height: nat)
    requires Enabled(s, e) && NobodyElse(s, t, id) && e.t != t && LinkedBelow(s, id, height)
    ensures LinkedBelow(Step(s, e), id, height)
  {
    hide NewPc, Less, SpliceAt, Next, LookAt;
  }

  lemma {:induction false} StaysOwn(s: State, e: Event, t: nat, id: Id)
    requires Enabled(s, e) && NobodyElse(s, t, id) && id in s.bytes
    ensures NobodyElse(Step(s, e), t, id) && id in Step(s, e).bytes
  {
    hide NewLevel, NewPc, Less, SpliceAt, Next, LookAt;
  }

  lemma {:induction false} LeavesAlone(s: State, e: Event, t: nat)
    requires Enabled(s, e) && t in s.threads && e.t != t
    ensures t in Step(s, e).threads && Step(s, e).threads[t] == s.threads[t]
  {
    hide NewLevel, NewPc, Less, SpliceAt, Next, LookAt;
  }

  lemma {:induction false} StepTowers(s: State, e: Event, t: nat, id: Id, height: nat)
    requires Inv(s) && Enabled(s, e) && Towers(s, t, id, height) && !(e.Begins? && e.t == t)
    ensures Towers(Step(s, e), t, id, height)
  {
    hide Inv, Enabled, Step, NobodyElse, LinkedBelow;
    StaysOwn(s, e, t, id);
    if e.t != t {
      LeavesAlone(s, e, t);
      if s.threads[t].Added? { LinksOwn(s, e, t, id, height); }
      if s.threads[t].Exists? { LinksOwn(s, e, t, id, 0); }
    } else {
      OwnTower(s, e, id, height);
    }
  }

  lemma {:induction false} OwnTower(s: State, e: Event, id: Id, height: nat)
    requires Inv(s) && Enabled(s, e) && Towers(s, e.t, id, height) && !e.Begins?
    ensures e.Adds? && e.t in Step(s, e).threads
    ensures match Step(s, e).threads[e.t]
            case Adding(h, _, w, _) => h == height && w.nd == id
            case Added(nd) => nd == id && LinkedBelow(Step(s, e), id, height)
            case Exists(_) => LinkedBelow(Step(s, e), id, 0)
            case _ => false
  {
    hide LevelInv, RanksOf, NobodyElse, Nested, OwnNodesOk, NewLevel, NewPc, Less, SpliceAt, Next, InsertOk;
    var th := s.threads[e.t];
    OnLevelOk(s, e.t);
    assert ThreadOk(s.bytes, s.levels, th);
    var i, w := th.level, th.insert;
    assert At(s, i)[e.t] == w;
    InsertSays(s.levels[i], RanksOf(s.bytes), At(s, i), e.t);
  }

  lemma {:induction false} InsertSays(lv: Level, k: Ranks, ws: Inserts, t: nat)
    requires LevelInv(lv, k, ws) && t in ws
    ensures ws[t].pc.Final? ==> ws[t].nd in lv.linked && NewLevel(lv, ws[t]).linked == lv.linked
    ensures ws[t].pc.ReSeek? ==> ws[t].nd !in lv.linked
  {
    assert InsertOk(lv, k, ws[t]);
  }

  lemma {:induction false} TowerBegins(s: State, e: Event)
    requires Inv(s) && Enabled(s, e) && e.Creates?
    ensures Towers(Step(s, e), e.t, e.id, e.height)
  {
    hide LevelsInv, RanksOf, Nested, OwnNodesOk, SpliceAt, SplicesOk;
    forall x | x in s.threads && s.threads[x].Adding? ensures s.threads[x].insert.nd != e.id {
      assert ThreadOk(s.bytes, s.levels, s.threads[x]);
    }
  }

  /**
   In every interleaving a node, once made, belongs to its goroutine. When the add is done the node is linked on
   exactly the levels of its tower, and if another goroutine was faster, on none.
   */
  lemma {:induction false} TowersComplete(states: seq<State>, events: seq<Event>, m: nat, n: nat)
    requires IsRun(states, events) && m < n < |states| && events[m].Creates? && NoBegin(events, events[m].t, m + 1, n)
    ensures Towers(states[n], events[m].t, events[m].id, events[m].height)
  {
    hide Step, Enabled, Inv, Towers;
    RunKeepsInv(states, events, n - 1);
    if n == m + 1 {
      TowerBegins(states[m], events[m]);
    } else {
      TowersComplete(states, events, m, n - 1);
      StepTowers(states[n - 1], events[n - 1], events[m].t, events[m].id, events[m].height);
    }
  }
}
