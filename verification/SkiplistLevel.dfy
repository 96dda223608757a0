/**
 arenaskl/iterator.go, arenaskl/skl.go: one level of the lock-free skiplist. A level is a doubly
 linked list whose next links are moved by compare-and-swap; prev links are set later, by the inserting
 goroutine or by one that helps it. Any number of inserts can be between any two of their atomic
 accesses. This module states what holds of a level and the inserts in progress on it, and that
 every atomic access of every insert keeps it.
 */
module SkiplistLevel {

  /** The number of levels of a list. */
  const MAX_HEIGHT: nat := 20

  type Id = nat

  const HEAD: Id := 0
  const TAIL: Id := 1

  /** linked is the set of nodes reachable by next links; towers of other nodes are still private. */
  datatype Level = Level(linked: set<Id>, next: map<Id, Id>, prev: map<Id, Id>)

  /** The rank of a node's key; the head is below and the tail above every key. */
  type Ranks = map<Id, real>

  /** Where an insert is in the loop of Iterator.Add on this level. */
  datatype Pc =
    | Init            // about to initialise the tower links of the new node
    | CheckPrev       // about to read next's prev link
    | ReadNext(y: Id) // read y there, not prev: about to read prev's next link
    | Help(y: Id)     // prev points to next: about to swing next's prev link from y to prev
    | Link            // about to swing prev's next link from next to the new node
    | Final           // linked: about to swing next's prev link from prev to the new node
    | ReSeek          // the link failed: searching again from prev

  datatype Insert = Insert(nd: Id, prev: Id, next: Id, pc: Pc)

  type Inserts = map<nat, Insert>

  // ----- the invariant of a level

  ghost predicate NoneBetween(lv: Level, k: Ranks, a: Id, b: Id)
    requires lv.linked <= k.Keys && a in k && b in k
  {
    forall c | c in lv.linked :: !(k[a] < k[c] < k[b])
  }

  /** The next link of a goes to the linked node that follows it. */
  ghost predicate NextOk(lv: Level, k: Ranks, a: Id)
    requires lv.linked <= k.Keys && a in lv.linked
  {
    a in lv.next && lv.next[a] in lv.linked && k[a] < k[lv.next[a]] && NoneBetween(lv, k, a, lv.next[a])
  }

  /** The prev link of b goes to a linked node before it, not always the nearest. */
  ghost predicate PrevOk(lv: Level, k: Ranks, b: Id)
    requires lv.linked <= k.Keys && b in lv.linked
  {
    b in lv.prev && lv.prev[b] in lv.linked && k[lv.prev[b]] < k[b]
  }

  ghost predicate NodesOk(lv: Level, k: Ranks) {
    && HEAD in lv.linked && TAIL in lv.linked && lv.linked <= k.Keys
    && (forall a | a in lv.linked :: k[HEAD] <= k[a] <= k[TAIL])
    && (forall a, b | a in lv.linked && b in lv.linked && k[a] == k[b] :: a == b)
  }

  /** The next links lead through the linked nodes in strictly ascending order, skipping none. */
  ghost predicate ListOk(lv: Level, k: Ranks) {
    && NodesOk(lv, k)
    && (forall a {:trigger NextOk(lv, k, a)} | a in lv.linked && a != TAIL :: NextOk(lv, k, a))
    && (forall b {:trigger PrevOk(lv, k, b)} | b in lv.linked && b != HEAD :: PrevOk(lv, k, b))
  }

  /** prev is a linked node before the new one. */
  ghost predicate StartsBefore(lv: Level, k: Ranks, w: Insert) {
    && lv.linked <= k.Keys && w.nd in k && w.prev in lv.linked && w.prev != TAIL && k[w.prev] < k[w.nd]
    && w.prev in lv.next && lv.next[w.prev] in lv.linked
  }

  /** The new node belongs between prev and next, and next has not come closer than prev's link. */
  ghost predicate Between(lv: Level, k: Ranks, w: Insert) {
    && StartsBefore(lv, k, w)
    && w.next in lv.linked && w.next != HEAD && k[w.nd] < k[w.next] && w.next in lv.prev && lv.prev[w.next] in lv.linked
    && k[lv.next[w.prev]] <= k[w.next]
  }

  ghost predicate TowerSet(lv: Level, w: Insert) {
    w.nd !in lv.linked && w.nd in lv.next && lv.next[w.nd] == w.next && w.nd in lv.prev && lv.prev[w.nd] == w.prev
  }

  /** What an insert may rely on at each point. */
  ghost predicate InsertOk(lv: Level, k: Ranks, w: Insert) {
    match w.pc
    case Init => Between(lv, k, w) && w.nd !in lv.linked
    case CheckPrev => Between(lv, k, w) && TowerSet(lv, w)
    case ReadNext(y) =>
      && Between(lv, k, w) && TowerSet(lv, w) && y in lv.linked
      && (lv.next[w.prev] == w.next ==> k[y] < k[w.prev])
      && (lv.next[w.prev] == w.next && k[lv.prev[w.next]] < k[w.prev] ==> lv.prev[w.next] == y)
    case Help(y) =>
      && Between(lv, k, w) && TowerSet(lv, w) && y in lv.linked && k[y] < k[w.prev]
      && (k[lv.prev[w.next]] < k[w.prev] ==> lv.next[w.prev] == w.next && lv.prev[w.next] == y)
    case Link =>
      Between(lv, k, w) && TowerSet(lv, w) && (lv.next[w.prev] == w.next ==> lv.prev[w.next] == w.prev)
    case Final =>
      && Between(lv, k, w) && w.nd in lv.linked && w.nd != TAIL && w.nd in lv.next
      && (k[lv.prev[w.next]] < k[w.nd] ==> lv.next[w.nd] == w.next && lv.prev[w.next] == w.prev)
    case ReSeek => StartsBefore(lv, k, w) && w.nd !in lv.linked
  }

  /** An insert that has linked its node but not yet set the prev link of the node after it. */
  ghost predicate Owes(w: Insert, a: Id, b: Id) { w.pc.Final? && w.nd == a && w.next == b }

  ghost predicate BackOk(lv: Level, ws: Inserts, a: Id) {
    a in lv.next && lv.next[a] in lv.prev ==>
      lv.prev[lv.next[a]] == a || exists t :: t in ws && Owes(ws[t], a, lv.next[a])
  }

  /** Wherever a prev link is behind, the insert that will set it is still there. */
  ghost predicate BackLinks(lv: Level, ws: Inserts) {
    forall a {:trigger BackOk(lv, ws, a)} | a in lv.linked && a != TAIL :: BackOk(lv, ws, a)
  }

  ghost predicate OwnNodes(ws: Inserts) {
    forall t, t' | t in ws && t' in ws && t != t' :: ws[t].nd != ws[t'].nd
  }

  ghost predicate LevelInv(lv: Level, k: Ranks, ws: Inserts) {
    ListOk(lv, k) && (forall t | t in ws :: InsertOk(lv, k, ws[t])) && OwnNodes(ws) && BackLinks(lv, ws)
  }

  // ----- the atomic accesses

  /** What one access does to the level. */
  function NewLevel(lv: Level, w: Insert): Level {
    match w.pc
    case Init => lv.(next := lv.next[w.nd := w.next], prev := lv.prev[w.nd := w.prev])
    case Help(y) => if w.next in lv.prev && lv.prev[w.next] == y then lv.(prev := lv.prev[w.next := w.prev]) else lv
    case Link =>
      if w.prev in lv.next && lv.next[w.prev] == w.next
      then lv.(next := lv.next[w.prev := w.nd], linked := lv.linked + {w.nd}) else lv
    case Final => if w.next in lv.prev && lv.prev[w.next] == w.prev then lv.(prev := lv.prev[w.next := w.nd]) else lv
    case _ => lv
  }

  /** And where the insert goes next; after Final it has left the level. */
  function NewPc(lv: Level, w: Insert): Pc {
    match w.pc
    case Init => CheckPrev
    case CheckPrev => if w.next in lv.prev && lv.prev[w.next] != w.prev then ReadNext(lv.prev[w.next]) else Link
    case ReadNext(y) => if w.prev in lv.next && lv.next[w.prev] == w.next then Help(y) else Link
    case Help(y) => Link
    case Link => if w.prev in lv.next && lv.next[w.prev] == w.next then Final else ReSeek
    case Final => Final
    case ReSeek => ReSeek
  }

  // ----- reads change nothing

  lemma {:induction false} CheckPrevKeeps(lv: Level, k: Ranks, w: Insert)
    requires ListOk(lv, k) && InsertOk(lv, k, w) && w.pc.CheckPrev?
    ensures InsertOk(lv, k, w.(pc := NewPc(lv, w)))
  {
    assert NextOk(lv, k, w.prev) && PrevOk(lv, k, w.next);
  }

  lemma {:induction false} ReadNextKeeps(lv: Level, k: Ranks, w: Insert)
    requires ListOk(lv, k) && InsertOk(lv, k, w) && w.pc.ReadNext?
    ensures InsertOk(lv, k, w.(pc := NewPc(lv, w)))
  {
  }

  /** A thread moves on, or comes in, without touching the level and without owing anything. */
  lemma {:induction false} MoveKeepsInv(lv: Level, k: Ranks, ws: Inserts, t: nat, w: Insert)
    requires LevelInv(lv, k, ws) && InsertOk(lv, k, w) && !w.pc.Final?
    requires t in ws ==> ws[t].nd == w.nd && !ws[t].pc.Final?
    requires t !in ws ==> forall t' | t' in ws :: ws[t'].nd != w.nd
    ensures LevelInv(lv, k, ws[t := w])
  {
    hide ListOk, InsertOk;
    SameDebts(lv, ws, ws[t := w]);
  }

  lemma {:induction false} SameDebts(lv: Level, ws: Inserts, ws': Inserts)
    requires BackLinks(lv, ws)
    requires forall t, a, b | t in ws && Owes(ws[t], a, b) :: t in ws' && Owes(ws'[t], a, b)
    ensures BackLinks(lv, ws')
  {
    forall a | a in lv.linked && a != TAIL ensures BackOk(lv, ws', a) {
      assert BackOk(lv, ws, a);
      if t :| t in ws && a in lv.next && Owes(ws[t], a, lv.next[a]) { assert t in ws' && Owes(ws'[t], a, lv.next[a]); }
    }
  }

  // ----- writes to the own tower

  lemma {:induction false} InitKeepsInv(lv: Level, k: Ranks, ws: Inserts, t: nat)
    requires LevelInv(lv, k, ws) && t in ws && ws[t].pc.Init?
    ensures LevelInv(NewLevel(lv, ws[t]), k, ws[t := ws[t].(pc := CheckPrev)])
  {
    hide ListOk, InsertOk, BackLinks;
    var w := ws[t];
    var lv', ws' := NewLevel(lv, w), ws[t := w.(pc := CheckPrev)];
    InitKeepsList(lv, k, w);
    forall t' | t' in ws && t' != t ensures InsertOk(lv', k, ws[t']) { InitKeepsOther(lv, k, w, ws[t']); }
    InitKeepsBack(lv, k, ws, t);
  }

  lemma {:induction false} InitKeepsList(lv: Level, k: Ranks, w: Insert)
    requires ListOk(lv, k) && InsertOk(lv, k, w) && w.pc.Init?
    ensures ListOk(NewLevel(lv, w), k) && InsertOk(NewLevel(lv, w), k, w.(pc := CheckPrev))
  {
    var lv' := NewLevel(lv, w);
    forall a | a in lv'.linked && a != TAIL ensures NextOk(lv', k, a) { assert NextOk(lv, k, a); }
    forall b | b in lv'.linked && b != HEAD ensures PrevOk(lv', k, b) { assert PrevOk(lv, k, b); }
  }

  lemma {:induction false} InitKeepsOther(lv: Level, k: Ranks, w: Insert, v: Insert)
    requires ListOk(lv, k) && InsertOk(lv, k, w) && w.pc.Init? && InsertOk(lv, k, v) && v.nd != w.nd
    ensures InsertOk(NewLevel(lv, w), k, v)
  {
  }

  lemma {:induction false} InitKeepsBack(lv: Level, k: Ranks, ws: Inserts, t: nat)
    requires LevelInv(lv, k, ws) && t in ws && ws[t].pc.Init?
    ensures BackLinks(NewLevel(lv, ws[t]), ws[t := ws[t].(pc := CheckPrev)])
  {
    var w := ws[t];
    assert InsertOk(lv, k, w);
    var lv' := NewLevel(lv, w);
    forall a | a in lv'.linked && a != TAIL ensures BackOk(lv', ws, a) {
      assert BackOk(lv, ws, a) && NextOk(lv, k, a);
    }
    SameDebts(lv', ws, ws[t := w.(pc := CheckPrev)]);
  }

  // ----- moving a prev link forward

  /** The next links of two linked nodes do not meet. */
  lemma {:induction false} NextInjective(lv: Level, k: Ranks, a: Id, c: Id)
    requires ListOk(lv, k) && a in lv.linked && c in lv.linked && a != TAIL && c != TAIL
    requires a in lv.next && c in lv.next && lv.next[a] == lv.next[c]
    ensures a == c
  {
    assert NextOk(lv, k, a) && NextOk(lv, k, c);
  }

  /** A swing of b's prev link from its present value to a, when a is the node just before b. */
  ghost predicate GoodSwing(lv: Level, k: Ranks, a: Id, b: Id) {
    && a in lv.linked && b in lv.linked && a != TAIL && b != HEAD && a in lv.next && lv.next[a] == b
    && b in lv.prev && lv.prev[b] in lv.linked && lv.linked <= k.Keys && k[lv.prev[b]] < k[a] < k[b]
  }

  ghost function Swung(lv: Level, a: Id, b: Id): Level { lv.(prev := lv.prev[b := a]) }

  lemma {:induction false} SwingKeepsList(lv: Level, k: Ranks, a: Id, b: Id)
    requires ListOk(lv, k) && GoodSwing(lv, k, a, b)
    ensures ListOk(Swung(lv, a, b), k)
  {
    var lv' := Swung(lv, a, b);
    forall x | x in lv'.linked && x != TAIL ensures NextOk(lv', k, x) { assert NextOk(lv, k, x); }
    forall x | x in lv'.linked && x != HEAD ensures PrevOk(lv', k, x) { assert PrevOk(lv, k, x); }
  }

  lemma {:induction false} SwingKeepsInsert(lv: Level, k: Ranks, a: Id, b: Id, v: Insert)
    requires ListOk(lv, k) && GoodSwing(lv, k, a, b) && InsertOk(lv, k, v)
    ensures InsertOk(Swung(lv, a, b), k, v)
  {
    if v.prev in lv.next && lv.next[v.prev] == b { NextInjective(lv, k, v.prev, a); }
    if v.nd in lv.linked && v.nd != TAIL && v.nd in lv.next && lv.next[v.nd] == b { NextInjective(lv, k, v.nd, a); }
  }

  lemma {:induction false} SwingKeepsInv(lv: Level, k: Ranks, ws: Inserts, a: Id, b: Id)
    requires LevelInv(lv, k, ws) && GoodSwing(lv, k, a, b)
    ensures LevelInv(Swung(lv, a, b), k, ws)
  {
    hide InsertOk;
    var lv' := Swung(lv, a, b);
    SwingKeepsList(lv, k, a, b);
    forall t | t in ws ensures InsertOk(lv', k, ws[t]) { SwingKeepsInsert(lv, k, a, b, ws[t]); }
    forall x | x in lv'.linked && x != TAIL ensures BackOk(lv', ws, x) {
      assert BackOk(lv, ws, x) && NextOk(lv, k, x);
      if lv.next[x] == b { NextInjective(lv, k, x, a); }
    }
  }

  lemma {:induction false} HelpKeepsInv(lv: Level, k: Ranks, ws: Inserts, t: nat)
    requires LevelInv(lv, k, ws) && t in ws && ws[t].pc.Help?
    ensures LevelInv(NewLevel(lv, ws[t]), k, ws[t := ws[t].(pc := Link)])
  {
    hide LevelInv, InsertOk;
    var w := ws[t];
    LevelParts(lv, k, ws, t);
    HelpCase(lv, k, w);
    if lv.prev[w.next] == w.pc.y {
      SwingKeepsInv(lv, k, ws, w.prev, w.next);
      MoveKeepsInv(Swung(lv, w.prev, w.next), k, ws, t, w.(pc := Link));
    } else {
      MoveKeepsInv(lv, k, ws, t, w.(pc := Link));
    }
  }

  lemma {:induction false} LevelParts(lv: Level, k: Ranks, ws: Inserts, t: nat)
    requires LevelInv(lv, k, ws) && t in ws
    ensures ListOk(lv, k) && InsertOk(lv, k, ws[t])
  {
  }

  lemma {:induction false} HelpCase(lv: Level, k: Ranks, w: Insert)
    requires ListOk(lv, k) && InsertOk(lv, k, w) && w.pc.Help?
    ensures w.next in lv.prev
    ensures lv.prev[w.next] == w.pc.y ==>
              GoodSwing(lv, k, w.prev, w.next) && InsertOk(Swung(lv, w.prev, w.next), k, w.(pc := Link))
    ensures lv.prev[w.next] != w.pc.y ==> InsertOk(lv, k, w.(pc := Link))
  {
    assert NextOk(lv, k, w.prev) && PrevOk(lv, k, w.next);
  }

  /** The last access: whether or not the swing succeeds, the prev link is right and the thread may go. */
  lemma {:induction false} FinalKeepsInv(lv: Level, k: Ranks, ws: Inserts, t: nat)
    requires LevelInv(lv, k, ws) && t in ws && ws[t].pc.Final?
    ensures LevelInv(NewLevel(lv, ws[t]), k, ws - {t})
  {
    hide LevelInv, InsertOk;
    var w := ws[t];
    LevelParts(lv, k, ws, t);
    FinalCase(lv, k, w);
    if lv.prev[w.next] == w.prev {
      SwingKeepsInv(lv, k, ws, w.nd, w.next);
      LeaveKeepsInv(Swung(lv, w.nd, w.next), k, ws, t);
    } else {
      LeaveKeepsInv(lv, k, ws, t);
    }
  }

  lemma {:induction false} FinalCase(lv: Level, k: Ranks, w: Insert)
    requires ListOk(lv, k) && InsertOk(lv, k, w) && w.pc.Final?
    ensures w.next in lv.prev && w.nd in lv.next
    ensures lv.prev[w.next] == w.prev ==> GoodSwing(lv, k, w.nd, w.next)
    ensures lv.prev[w.next] != w.prev && lv.next[w.nd] == w.next ==> lv.prev[w.next] == w.nd
  {
    assert NextOk(lv, k, w.nd) && PrevOk(lv, k, w.next);
  }

  lemma {:induction false} LeaveKeepsInv(lv: Level, k: Ranks, ws: Inserts, t: nat)
    requires LevelInv(lv, k, ws) && t in ws && ws[t].pc.Final?
    requires ws[t].nd in lv.next && ws[t].next in lv.prev
    requires (lv.next[ws[t].nd] == ws[t].next ==> lv.prev[ws[t].next] == ws[t].nd)
    ensures LevelInv(lv, k, ws - {t})
  {
    hide ListOk, InsertOk;
    var ws' := ws - {t};
    forall a | a in lv.linked && a != TAIL ensures BackOk(lv, ws', a) {
      assert BackOk(lv, ws, a);
      if t' :| t' in ws && a in lv.next && Owes(ws[t'], a, lv.next[a]) && t' != t {
        assert t' in ws' && Owes(ws'[t'], a, lv.next[a]);
      }
    }
  }

  // ----- linking

  ghost function Linked(lv: Level, p: Id, nd: Id): Level { lv.(next := lv.next[p := nd], linked := lv.linked + {nd}) }

  lemma {:induction false} LinkKeepsInv(lv: Level, k: Ranks, ws: Inserts, t: nat)
    requires LevelInv(lv, k, ws) && t in ws && ws[t].pc.Link?
    ensures LevelInv(NewLevel(lv, ws[t]), k, ws[t := ws[t].(pc := NewPc(lv, ws[t]))])
    ensures lv.linked <= NewLevel(lv, ws[t]).linked <= lv.linked + {ws[t].nd}
  {
    hide ListOk, InsertOk, BackLinks;
    var w := ws[t];
    LinkCase(lv, k, w);
    if lv.next[w.prev] == w.next {
      var lv', ws' := Linked(lv, w.prev, w.nd), ws[t := w.(pc := Final)];
      LinkKeepsList(lv, k, w);
      forall t' | t' in ws && t' != t ensures InsertOk(lv', k, ws[t']) { LinkKeepsOther(lv, k, w, ws[t']); }
      LinkKeepsBack(lv, k, ws, t);
    } else {
      MoveKeepsInv(lv, k, ws, t, w.(pc := ReSeek));
    }
  }

  lemma {:induction false} LinkCase(lv: Level, k: Ranks, w: Insert)
    requires InsertOk(lv, k, w) && w.pc.Link?
    ensures w.prev in lv.next && InsertOk(lv, k, w.(pc := ReSeek))
  {
  }

  lemma {:induction false} LinkKeepsList(lv: Level, k: Ranks, w: Insert)
    requires ListOk(lv, k) && InsertOk(lv, k, w) && w.pc.Link? && lv.next[w.prev] == w.next
    ensures ListOk(Linked(lv, w.prev, w.nd), k) && InsertOk(Linked(lv, w.prev, w.nd), k, w.(pc := Final))
  {
    hide NextOk, PrevOk;
    var lv' := Linked(lv, w.prev, w.nd);
    LinkKeepsNodes(lv, k, w);
    forall a | a in lv'.linked && a != TAIL ensures NextOk(lv', k, a) { LinkKeepsNext(lv, k, w, a); }
    forall b | b in lv'.linked && b != HEAD ensures PrevOk(lv', k, b) { LinkKeepsPrev(lv, k, w, b); }
  }

  lemma {:induction false} LinkKeepsNodes(lv: Level, k: Ranks, w: Insert)
    requires ListOk(lv, k) && InsertOk(lv, k, w) && w.pc.Link? && lv.next[w.prev] == w.next
    ensures NodesOk(Linked(lv, w.prev, w.nd), k)
  {
    assert NextOk(lv, k, w.prev);
  }

  lemma {:induction false} LinkKeepsNext(lv: Level, k: Ranks, w: Insert, a: Id)
    requires ListOk(lv, k) && InsertOk(lv, k, w) && w.pc.Link? && lv.next[w.prev] == w.next
    requires a != TAIL && a in Linked(lv, w.prev, w.nd).linked
    ensures NextOk(Linked(lv, w.prev, w.nd), k, a)
  {
    assert NextOk(lv, k, w.prev);
    if a != w.nd { assert NextOk(lv, k, a); }
  }

  lemma {:induction false} LinkKeepsPrev(lv: Level, k: Ranks, w: Insert, b: Id)
    requires ListOk(lv, k) && InsertOk(lv, k, w) && w.pc.Link? && lv.next[w.prev] == w.next
    requires b != HEAD && b in Linked(lv, w.prev, w.nd).linked
    ensures PrevOk(Linked(lv, w.prev, w.nd), k, b)
  {
    if b != w.nd { assert PrevOk(lv, k, b); }
  }

  /** A link between prev and next leaves every other insert what it relied on. */
  lemma {:induction false} LinkKeepsOther(lv: Level, k: Ranks, w: Insert, v: Insert)
    requires ListOk(lv, k) && InsertOk(lv, k, w) && w.pc.Link? && lv.next[w.prev] == w.next
    requires InsertOk(lv, k, v) && v.nd != w.nd
    ensures InsertOk(Linked(lv, w.prev, w.nd), k, v)
  {
    hide ListOk;
  }

  lemma {:induction false} LinkKeepsBack(lv: Level, k: Ranks, ws: Inserts, t: nat)
    requires LevelInv(lv, k, ws) && t in ws && ws[t].pc.Link? && ws[t].prev in lv.next
    requires lv.next[ws[t].prev] == ws[t].next
    ensures BackLinks(Linked(lv, ws[t].prev, ws[t].nd), ws[t := ws[t].(pc := Final)])
  {
    var w := ws[t];
    assert InsertOk(lv, k, w);
    var lv', ws' := Linked(lv, w.prev, w.nd), ws[t := w.(pc := Final)];
    forall a | a in lv'.linked && a != TAIL ensures BackOk(lv', ws', a) {
      if a == w.nd {
        assert t in ws' && Owes(ws'[t], a, lv'.next[a]);
      } else if a != w.prev {
        assert BackOk(lv, ws, a);
        if t' :| t' in ws && a in lv.next && Owes(ws[t'], a, lv.next[a]) {
          assert t' in ws' && Owes(ws'[t'], a, lv'.next[a]);
        }
      }
    }
  }

  // ----- every access

  /** One access of a goroutine that stays on the level. */
  lemma {:induction false} StepKeepsInv(lv: Level, k: Ranks, ws: Inserts, t: nat)
    requires LevelInv(lv, k, ws) && t in ws && !ws[t].pc.Final? && !ws[t].pc.ReSeek?
    ensures LevelInv(NewLevel(lv, ws[t]), k, ws[t := ws[t].(pc := NewPc(lv, ws[t]))])
  {
    hide LevelInv, InsertOk, ListOk;
    var w := ws[t];
    LevelParts(lv, k, ws, t);
    match w.pc
    case Init => InitKeepsInv(lv, k, ws, t);
    case CheckPrev =>
      CheckPrevKeeps(lv, k, w);
      MoveKeepsInv(lv, k, ws, t, w.(pc := NewPc(lv, w)));
    case ReadNext(y) =>
      ReadNextKeeps(lv, k, w);
      MoveKeepsInv(lv, k, ws, t, w.(pc := NewPc(lv, w)));
    case Help(y) => HelpKeepsInv(lv, k, ws, t);
    case Link => LinkKeepsInv(lv, k, ws, t);
    case Final =>
    case ReSeek =>
  }

  /** Nodes stay linked, at most the own node is new, and next links only come closer. */
  ghost predicate Grown(lv: Level, lv': Level, k: Ranks, nd: Id) {
    && lv.linked <= lv'.linked <= lv.linked + {nd} && lv'.linked <= k.Keys
    && forall a {:trigger a in lv'.next} | a in lv.linked && a != TAIL && a in lv.next && lv.next[a] in k ::
         a in lv'.next && lv'.next[a] in k && k[lv'.next[a]] <= k[lv.next[a]]
  }

  lemma {:induction false} StepGrows(lv: Level, k: Ranks, w: Insert)
    requires ListOk(lv, k) && InsertOk(lv, k, w)
    ensures Grown(lv, NewLevel(lv, w), k, w.nd)
    ensures !w.pc.Link? ==> NewLevel(lv, w).linked == lv.linked
  {
  }

  /** More nodes with keys change nothing for those there are. */
  lemma {:induction false} RanksGrow(lv: Level, k: Ranks, k': Ranks, ws: Inserts)
    requires LevelInv(lv, k, ws) && k.Keys <= k'.Keys && forall id | id in k :: k'[id] == k[id]
    ensures LevelInv(lv, k', ws)
  {
    hide BackLinks, InsertOk, ListOk;
    RanksGrowList(lv, k, k');
    forall t | t in ws ensures InsertOk(lv, k', ws[t]) { RanksGrowInsert(lv, k, k', ws[t]); }
  }

  lemma {:induction false} RanksGrowList(lv: Level, k: Ranks, k': Ranks)
    requires ListOk(lv, k) && k.Keys <= k'.Keys && forall id | id in k :: k'[id] == k[id]
    ensures ListOk(lv, k')
  {
    hide NextOk, PrevOk;
    RanksGrowNodes(lv, k, k');
    forall a | a in lv.linked && a != TAIL ensures NextOk(lv, k', a) {
      assert NextOk(lv, k, a);
      RanksGrowNext(lv, k, k', a);
    }
    forall b | b in lv.linked && b != HEAD ensures PrevOk(lv, k', b) {
      assert PrevOk(lv, k, b);
      RanksGrowPrev(lv, k, k', b);
    }
  }

  lemma {:induction false} RanksGrowNodes(lv: Level, k: Ranks, k': Ranks)
    requires NodesOk(lv, k) && k.Keys <= k'.Keys && forall id | id in k :: k'[id] == k[id]
    ensures NodesOk(lv, k')
  {
    assert lv.linked <= k'.Keys;
    assert forall a | a in lv.linked :: k'[a] == k[a];
  }

  lemma {:induction false} RanksGrowNext(lv: Level, k: Ranks, k': Ranks, a: Id)
    requires lv.linked <= k.Keys <= k'.Keys && (forall id | id in k :: k'[id] == k[id]) && a in lv.linked
    requires NextOk(lv, k, a)
    ensures NextOk(lv, k', a)
  {
  }

  lemma {:induction false} RanksGrowPrev(lv: Level, k: Ranks, k': Ranks, b: Id)
    requires lv.linked <= k.Keys <= k'.Keys && (forall id | id in k :: k'[id] == k[id]) && b in lv.linked
    requires PrevOk(lv, k, b)
    ensures PrevOk(lv, k', b)
  {
  }

  lemma {:induction false} RanksGrowInsert(lv: Level, k: Ranks, k': Ranks, w: Insert)
    requires InsertOk(lv, k, w) && k.Keys <= k'.Keys && forall id | id in k :: k'[id] == k[id]
    ensures InsertOk(lv, k', w)
  {
  }

  /** What reading a next link of a linked node tells. */
  lemma {:induction false} ReadOk(lv: Level, k: Ranks, a: Id)
    requires ListOk(lv, k) && a in lv.linked && a != TAIL
    ensures NextOk(lv, k, a)
  {
  }
}
