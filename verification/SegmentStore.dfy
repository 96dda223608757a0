/**
 levels/level_manager.go, levels/seg_cache.go: where the segments of the index live. The master record
 holds ids; a segment is found in a cache or else in the object store. New segments are held back
 in the cache until a flush writes them; replaced ones are deleted by the flush. A batch that fails
 is rolled back.
 */
module SegmentStore {
  import opened KeyEncoding
  import opened LevelSpec

  type SegmentID = string

  type Segments = map<SegmentID, Tables>

  /** What a batch does to segments, in its order. */
  datatype Op = Add(id: SegmentID, seg: Tables) | Remove(id: SegmentID)

  function Find(id: SegmentID, preFlush: Segments, lru: Segments, obj: Segments): Option<Tables> {
    if id in preFlush then Some(preFlush[id])
    else if id in lru then Some(lru[id])
    else if id in obj then Some(obj[id])
    else None
  }

  ghost predicate AllFound(live: Segments, preFlush: Segments, lru: Segments, obj: Segments) {
    forall id | id in live :: Find(id, preFlush, lru, obj) == Some(live[id])
  }

  /** What is live and held is held as it is. */
  ghost predicate HeldAsIs(live: Segments, preFlush: Segments, lru: Segments, obj: Segments) {
    forall id | id in live ::
      && (id in preFlush ==> preFlush[id] == live[id])
      && (id in lru ==> lru[id] == live[id])
      && (id in obj ==> obj[id] == live[id])
  }

  /**
   Every live segment is either to be added or in the object store, and none is to be deleted; whatever else
   the object store holds is to be deleted.
   */
  ghost predicate Booked(live: Segments, toAdd: Segments, toDelete: set<SegmentID>, obj: Segments) {
    && (forall id | id in toAdd :: id in live && toAdd[id] == live[id] && id !in obj)
    && (forall id | id in live :: (id in toAdd || id in obj) && id !in toDelete)
    && (forall id | id in obj :: id in live || id in toDelete)
  }

  ghost predicate WasUsed(segs: Segments, used: set<SegmentID>) { forall id | id in segs :: id in used }

  ghost predicate Covered(toAdd: Segments, preFlush: Segments) { forall id | id in toAdd :: id in preFlush }

  lemma {:induction false} AddKeeps(id: SegmentID, seg: Tables, live: Segments, preFlush: Segments, lru: Segments,
                                    obj: Segments,
                                    used: set<SegmentID>)
    requires id !in used && WasUsed(live, used) && WasUsed(obj, used)
    ensures HeldAsIs(live, preFlush, lru, obj) ==> HeldAsIs(live[id := seg], preFlush[id := seg], lru[id := seg], obj)
    ensures AllFound(live, preFlush, lru, obj) ==> AllFound(live[id := seg], preFlush[id := seg], lru[id := seg], obj)
  {
  }

  lemma {:induction false} AddBooked(id: SegmentID, seg: Tables, live: Segments, toAdd: Segments,
                                     toDelete: set<SegmentID>, obj: Segments,
                                     preFlush: Segments, used: set<SegmentID>)
    requires id !in used && WasUsed(live, used) && WasUsed(obj, used) && toDelete <= used
    requires Booked(live, toAdd, toDelete, obj)
    ensures Booked(live[id := seg], toAdd[id := seg], toDelete, obj)
    ensures Covered(toAdd, preFlush) ==> Covered(toAdd[id := seg], preFlush[id := seg])
  {
  }

  lemma {:induction false} UsedMore(segs: Segments, used: set<SegmentID>, id: SegmentID, seg: Tables)
    requires WasUsed(segs, used)
    ensures WasUsed(segs, used + {id}) && WasUsed(segs[id := seg], used + {id}) && WasUsed(segs - {id}, used)
  {
  }

  lemma {:induction false} InUse(segs: Segments, used: set<SegmentID>, id: SegmentID)
    requires WasUsed(segs, used) && id in segs
    ensures id in used
  {
  }

  lemma {:induction false} RemoveKeeps(id: SegmentID, live: Segments, preFlush: Segments, lru: Segments, obj: Segments)
    ensures HeldAsIs(live, preFlush, lru, obj) ==> HeldAsIs(live - {id}, preFlush - {id}, lru - {id}, obj)
    ensures AllFound(live, preFlush, lru, obj) ==> AllFound(live - {id}, preFlush - {id}, lru - {id}, obj)
  {
  }

  lemma {:induction false} RemoveBooked(id: SegmentID, live: Segments, toAdd: Segments, toDelete: set<SegmentID>,
                                        obj: Segments, preFlush: Segments)
    requires Booked(live, toAdd, toDelete, obj)
    ensures Booked(live - {id}, toAdd - {id}, if id in toAdd then toDelete else toDelete + {id}, obj)
    ensures Covered(toAdd, preFlush) ==> Covered(toAdd - {id}, preFlush - {id})
  {
  }

  /** What is left after the deletes, with what is added, is what is live; and nothing more is to be done. */
  lemma {:induction false} Flushed(live: Segments, toAdd: Segments, toDelete: set<SegmentID>, obj: Segments,
                                   preFlush: Segments, lru: Segments, used: set<SegmentID>)
    requires Booked(live, toAdd, toDelete, obj) && HeldAsIs(live, preFlush, lru, obj)
    ensures obj - toDelete + toAdd == live && Booked(live, map[], {}, live) && HeldAsIs(live, map[], lru, live)
    ensures AllFound(live, map[], lru, live) && Covered(map[], map[]) && WasUsed(map[], used)
  {
    var flushed := obj - toDelete + toAdd;
    forall id ensures id in flushed <==> id in live {}
    forall id | id in live ensures flushed[id] == live[id] {}
  }

  class Store {
    var preFlushCache: Segments
    var lruCache: Segments
    var segmentsToAdd: Segments
    var segmentsToDelete: set<SegmentID>
    var objStore: Segments
    // the segments the master record refers to, and every id ever given out
    ghost var live: Segments
    ghost var used: set<SegmentID>

    /** What getSegment finds. */
    function Lookup(id: SegmentID): Option<Tables>
      reads this
    {
      Find(id, preFlushCache, lruCache, objStore)
    }

    /** Every id in the master record resolves to its segment. */
    ghost predicate AllResolve()
      reads this
    {
      AllFound(live, preFlushCache, lruCache, objStore)
    }

    /** Wherever a live segment is held, it is held as it is. */
    ghost predicate Consistent()
      reads this
    {
      && HeldAsIs(live, preFlushCache, lruCache, objStore) && Booked(live, segmentsToAdd, segmentsToDelete, objStore)
      && WasUsed(live, used) && WasUsed(preFlushCache, used) && WasUsed(lruCache, used) && WasUsed(objStore, used)
      && segmentsToDelete <= used
    }

    /** And what is not yet in the object store is in the cache that nothing is evicted from. */
    ghost predicate Valid()
      reads this
    {
      Consistent() && Covered(segmentsToAdd, preFlushCache)
    }

    constructor ()
      ensures Valid() && live == map[] && used == {}
    {
      preFlushCache, lruCache, segmentsToAdd, segmentsToDelete, objStore := map[], map[], map[], {}, map[];
      live, used := map[], {};
    }

    lemma {:induction false} ValidResolves()
      requires Valid()
      ensures AllResolve() && forall id | id in live :: id !in segmentsToDelete
    {
    }

    /** getSegment: a segment read from the object store is put in the caches. */
    method GetSegment(id: SegmentID) returns (seg: Option<Tables>)
      requires Consistent()
      modifies this`preFlushCache, this`lruCache
      ensures seg == old(Lookup(id)) && Consistent() && (old(Valid()) ==> Valid())
      ensures old(AllResolve()) ==> AllResolve()
      ensures if id in objStore && id !in old(preFlushCache) && id !in old(lruCache)
              then preFlushCache == old(preFlushCache)[id := objStore[id]]
                   && lruCache == old(lruCache)[id := objStore[id]]
              else preFlushCache == old(preFlushCache) && lruCache == old(lruCache)
      ensures seg.Some? ==> id in preFlushCache || id in lruCache
    {
      if id in preFlushCache { return Some(preFlushCache[id]); }
      if id in lruCache { return Some(lruCache[id]); }
      if id !in objStore { return None; }
      preFlushCache := preFlushCache[id := objStore[id]];
      lruCache := lruCache[id := objStore[id]];
      return Some(objStore[id]);
    }

    /** The cache may drop a segment at any time. */
    method Evict(id: SegmentID)
      requires Consistent()
      modifies this`lruCache
      ensures Consistent() && (old(Valid()) ==> Valid()) && lruCache == old(lruCache) - {id}
    {
      lruCache := lruCache - {id};
    }

    /** segmentToAdd, under a new id. */
    method SegmentToAdd(id: SegmentID, seg: Tables)
      requires Consistent() && id !in used
      modifies this
      ensures Consistent() && (old(Valid()) ==> Valid()) && (old(AllResolve()) ==> AllResolve())
      ensures live == old(live)[id := seg] && used == old(used) + {id} && objStore == old(objStore)
      ensures segmentsToAdd == old(segmentsToAdd)[id := seg] && segmentsToDelete == old(segmentsToDelete)
      ensures preFlushCache == old(preFlushCache)[id := seg] && lruCache == old(lruCache)[id := seg]
    {
      hide HeldAsIs, AllFound, Booked, Covered, WasUsed;
      AddKeeps(id, seg, live, preFlushCache, lruCache, objStore, used);
      AddBooked(id, seg, live, segmentsToAdd, segmentsToDelete, objStore, preFlushCache, used);
      UsedMore(live, used, id, seg);
      UsedMore(preFlushCache, used, id, seg);
      UsedMore(lruCache, used, id, seg);
      UsedMore(objStore, used, id, seg);
      preFlushCache := preFlushCache[id := seg];
      lruCache := lruCache[id := seg];
      segmentsToAdd := segmentsToAdd[id := seg];
      live, used := live[id := seg], used + {id};
    }

    /** segmentToRemove: one that was never flushed is forgotten, any other is to be deleted. */
    method SegmentToRemove(id: SegmentID)
      requires Consistent() && id in live
      modifies this
      ensures Consistent() && (old(Valid()) ==> Valid()) && (old(AllResolve()) ==> AllResolve())
      ensures live == old(live) - {id} && used == old(used) && objStore == old(objStore)
      ensures segmentsToAdd == old(segmentsToAdd) - {id}
      ensures segmentsToDelete == old(segmentsToDelete) + if id in old(segmentsToAdd) then {} else {id}
      ensures preFlushCache == old(preFlushCache) - {id} && lruCache == old(lruCache) - {id}
    {
      hide HeldAsIs, AllFound, Booked, Covered, WasUsed;
      RemoveKeeps(id, live, preFlushCache, lruCache, objStore);
      RemoveBooked(id, live, segmentsToAdd, segmentsToDelete, objStore, preFlushCache);
      InUse(live, used, id);
      assert id !in segmentsToAdd ==> segmentsToAdd - {id} == segmentsToAdd;
      UsedMore(live, used, id, []);
      UsedMore(preFlushCache, used, id, []);
      UsedMore(lruCache, used, id, []);
      preFlushCache := preFlushCache - {id};
      lruCache := lruCache - {id};
      if id in segmentsToAdd {
        segmentsToAdd := segmentsToAdd - {id};
      } else {
        segmentsToDelete := segmentsToDelete + {id};
      }
      live := live - {id};
    }

    /**
     A successful Flush as one step: deletes, then adds, and the cache of unflushed segments is emptied. The
     object store then holds the live segments and nothing else.
     */
    method Flush()
      requires Consistent()
      modifies this
      ensures Valid() && AllResolve() && live == old(live) && segmentsToAdd == map[] && segmentsToDelete == {}
      ensures objStore == live && preFlushCache == map[] && lruCache == old(lruCache) && used == old(used)
    {
      hide HeldAsIs, AllFound, Booked, Covered, WasUsed;
      Flushed(live, segmentsToAdd, segmentsToDelete, objStore, preFlushCache, lruCache, used);
      objStore := objStore - segmentsToDelete;
      objStore := objStore + segmentsToAdd;
      segmentsToAdd, segmentsToDelete := map[], {};
      preFlushCache := map[];
    }

    /** The segment changes of a batch, one after the other. */
    method RunOps(ops: seq<Op>)
      requires Consistent() && Possible(live, used, ops)
      modifies this
      ensures Consistent() && (old(Valid()) ==> Valid()) && (old(AllResolve()) ==> AllResolve())
      ensures objStore == old(objStore) && old(used) <= used && live == After(old(live), ops)
      ensures forall id | id in Removed(ops) && id in old(live) :: id !in preFlushCache && id !in lruCache
      ensures Kept(old(preFlushCache), preFlushCache, old(used) - Removed(ops))
      ensures Kept(old(lruCache), lruCache, old(used) - Removed(ops))
      decreases |ops|
    {
      hide HeldAsIs, AllFound, Booked, Covered, WasUsed, Kept, Removed;
      if ops == [] {
        NothingRemoved(preFlushCache, used);
        NothingRemoved(lruCache, used);
        return;
      }
      var rest := ops[1..];
      ghost var live0, used0, pre0, lru0 := live, used, preFlushCache, lruCache;
      match ops[0] {
        case Add(id, seg) => SegmentToAdd(id, seg);
        case Remove(id) => SegmentToRemove(id);
      }
      ghost var live1, used1, pre1, lru1 := live, used, preFlushCache, lruCache;
      RunOps(rest);
      OneMore(ops, live0, used0, live1, used1, pre0, pre1, preFlushCache);
      OneMore(ops, live0, used0, live1, used1, lru0, lru1, lruCache);
    }

    /**
     doApplyChanges, as far as segments go: a failing batch is rolled back. The rollback does not bring
     back what the batch dropped from the caches. So after a failure every id still resolves, and all
     that can be done before can be done again, exactly when that was so before and the batch had not
     replaced a segment that was waiting to be flushed.
     */
    method ApplyBatch(ops: seq<Op>, fails: bool)
      requires Consistent() && Possible(live, used, ops)
      modifies this
      ensures Consistent()
      ensures objStore == old(objStore) && old(used) <= used
      ensures !fails ==>
                live == After(old(live), ops) && (old(Valid()) ==> Valid()) && (old(AllResolve()) ==> AllResolve())
      ensures fails ==>
                live == old(live) && segmentsToAdd == old(segmentsToAdd) && segmentsToDelete == old(segmentsToDelete)
      ensures fails ==> (Valid() <==> old(Valid()) && NoneUnflushed(Removed(ops), old(segmentsToAdd)))
      ensures fails ==> (AllResolve() <==> old(AllResolve()) && NoneUnflushed(Removed(ops), old(segmentsToAdd)))
    {
      hide HeldAsIs, AllFound, Booked, Covered, Kept, NoneUnflushed, Removed;
      var toAdd, toDelete := segmentsToAdd, segmentsToDelete;
      ghost var live0, used0, pre0, lru0 := live, used, preFlushCache, lruCache;
      RunOps(ops);
      if fails {
        segmentsToAdd, segmentsToDelete := toAdd, toDelete;
        live := live0;
        RolledBack(live0, toAdd, toDelete, objStore, Removed(ops), used0, pre0, preFlushCache, lru0, lruCache);
      }
    }
  }

  /** After a rollback: the caches are what they were, less what the batch removed. */
  lemma {:induction false} RolledBack(live: Segments, toAdd: Segments, toDelete: set<SegmentID>, obj: Segments,
                                      removed: set<SegmentID>,
                                      used: set<SegmentID>, pre: Segments, pre': Segments, lru: Segments,
                                        lru': Segments)
    requires WasUsed(live, used) && HeldAsIs(live, pre, lru, obj) && Booked(live, toAdd, toDelete, obj)
    requires forall id | id in removed && id in live :: id !in pre' && id !in lru'
    requires Kept(pre, pre', used - removed) && Kept(lru, lru', used - removed)
    ensures HeldAsIs(live, pre', lru', obj)
    ensures Covered(toAdd, pre') <==> Covered(toAdd, pre) && NoneUnflushed(removed, toAdd)
    ensures AllFound(live, pre', lru', obj) <==> AllFound(live, pre, lru, obj) && NoneUnflushed(removed, toAdd)
  {
    forall id | id in live
      ensures id in pre' ==> pre'[id] == live[id]
      ensures id in lru' ==> lru'[id] == live[id]
      ensures id in pre' <==> id in pre && id !in removed
      ensures Find(id, pre', lru', obj) == Some(live[id])
              <==> Find(id, pre, lru, obj) == Some(live[id]) && !(id in removed && id in toAdd)
    {
      assert id !in removed ==> id in used - removed;
    }
  }

  ghost predicate NoneUnflushed(ids: set<SegmentID>, unflushed: Segments) { forall id | id in ids :: id !in unflushed }

  /** The two maps agree on the ids. */
  ghost predicate Kept(a: Segments, b: Segments, ids: set<SegmentID>) {
    forall id | id in ids :: (id in a <==> id in b) && (id in a ==> a[id] == b[id])
  }

  /** Adds take new ids; only a segment in use is removed. */
  ghost predicate Possible(live: Segments, used: set<SegmentID>, ops: seq<Op>)
    decreases |ops|
  {
    ops == [] ||
    match ops[0]
    case Add(id, seg) => id !in used && Possible(live[id := seg], used + {id}, ops[1..])
    case Remove(id) => id in live && Possible(live - {id}, used, ops[1..])
  }

  ghost function After(live: Segments, ops: seq<Op>): Segments
    decreases |ops|
  {
    if ops == [] then live
    else match ops[0]
      case Add(id, seg) => After(live[id := seg], ops[1..])
      case Remove(id) => After(live - {id}, ops[1..])
  }

  ghost function Removed(ops: seq<Op>): set<SegmentID> { set o | o in ops && o.Remove? :: o.id }

  /** An id once used and no longer in use is not touched again. */
  lemma {:induction false} StaysRemoved(live: Segments, used: set<SegmentID>, ops: seq<Op>)
    requires Possible(live, used, ops) && WasUsed(live, used)
    ensures forall id | id in used && id !in live :: id !in Removed(ops)
    decreases |ops|
  {
    if ops != [] {
      var rest := ops[1..];
      assert Removed(ops) == Removed(rest) + if ops[0].Remove? then {ops[0].id} else {};
      match ops[0]
      case Add(id, seg) => StaysRemoved(live[id := seg], used + {id}, rest);
      case Remove(id) => StaysRemoved(live - {id}, used, rest);
    }
  }

  lemma {:induction false} NothingRemoved(cache: Segments, used: set<SegmentID>)
    ensures Removed([]) == {} && Kept(cache, cache, used - {})
  {
  }

  /** What a cache keeps of the first change and then of the rest, it keeps of all. */
  lemma {:induction false} OneMore(ops: seq<Op>, live: Segments, used: set<SegmentID>, live1: Segments,
                                   used1: set<SegmentID>, cache: Segments, cache1: Segments, cache2: Segments)
    requires ops != [] && WasUsed(live, used) && Possible(live1, used1, ops[1..]) && WasUsed(live1, used1)
    requires if ops[0].Remove? then used1 == used && live1 == live - {ops[0].id} && cache1 == cache - {ops[0].id}
             else ops[0].id !in used && used1 == used + {ops[0].id} && live1 == live[ops[0].id := ops[0].seg]
                  && cache1 == cache[ops[0].id := ops[0].seg]
    requires Kept(cache1, cache2, used1 - Removed(ops[1..]))
    requires forall id | id in Removed(ops[1..]) && id in live1 :: id !in cache2
    ensures Kept(cache, cache2, used - Removed(ops))
    ensures forall id | id in Removed(ops) && id in live :: id !in cache2
  {
    hide Possible;
    StaysRemoved(live1, used1, ops[1..]);
    assert Removed(ops) == Removed(ops[1..]) + if ops[0].Remove? then {ops[0].id} else {};
    if ops[0].Remove? && ops[0].id in live { assert ops[0].id in used1 - Removed(ops[1..]); }
  }

  /** One segment added and not yet flushed, replaced by a batch that then fails: it is not found. */
  method RollbackLosesSegment() returns (s: Store)
    ensures s.Consistent() && "a" in s.live && s.Lookup("a") == None
  {
    s := new Store();
    s.SegmentToAdd("a", []);
    var ops := [Remove("a"), Add("b", [])];
    assert ops[1..] == [Add("b", [])] && ops[1..][1..] == [];
    assert ops[0] in ops && "a" in Removed(ops);
    assert !NoneUnflushed(Removed(ops), s.segmentsToAdd);
    s.ApplyBatch(ops, true);
    assert !s.AllResolve();
    assert s.live.Keys == {"a"};
  }
}
