/**
 Consumers of the merge: queries (store iterators, which call IsValid, Current, Next in a loop) and
 compaction (levels/compaction_worker.go: mergeSSTables), which chains the tables of each run,
 merges the chains and cuts the result into tables of bounded size (levels/iters.go:
 maxSizeIterator). An SSTable is modelled by its sequence of entries.
 */
module CompactionMerge {
  import opened Bytes
  import opened KeptRounds
  import opened KeyEncoding
  import opened MergeRounds
  import opened MergeSpec
  import opened MergingIterators

  // ----- what a consumer sees of the chosen entries

  /** The chosen entries that are handed out: all, or all but the tombstones. */
  ghost function Visible(done: seq<Tagged>, preserveTombstones: bool): (r: seq<Entry>) {
    if done == [] then []
    else
      var n := |done| - 1;
      Visible(done[..n], preserveTombstones)
      + if preserveTombstones || !IsTombstone(done[n].e) then [done[n].e] else []
  }

  lemma {:induction false} VisiblePush(done: seq<Tagged>, t: Tagged, preserve: bool)
    ensures Visible(done + [t], preserve)
            == Visible(done, preserve) + if preserve || !IsTombstone(t.e) then [t.e] else []
  {
    assert (done + [t])[..|done|] == done;
  }

  /** Tombstones passed over on the way to the next entry are not seen. */
  lemma {:induction false} VisibleTombstones(done0: seq<Tagged>, done: seq<Tagged>, preserve: bool)
    requires done0 <= done && forall k | |done0| <= k < |done| :: IsTombstone(done[k].e)
    requires preserve ==> done == done0
    ensures Visible(done, preserve) == Visible(done0, preserve)
  {
    if |done0| < |done| {
      VisibleTombstones(done0, done[..|done| - 1], preserve);
      assert IsTombstone(done[|done| - 1].e);
    } else {
      assert done == done0;
    }
  }

  lemma {:induction false} VisibleMembers(done: seq<Tagged>, preserve: bool, x: Entry)
    ensures x in Visible(done, preserve)
            <==> (preserve || !IsTombstone(x)) && exists i: nat :: Tagged(x, i) in done
  {
    if done != [] {
      var n := |done| - 1;
      VisibleMembers(done[..n], preserve, x);
      assert done == done[..n] + [done[n]];
      if i: nat :| Tagged(x, i) in done[..n] { assert Tagged(x, i) in done; }
      if done[n].e == x { assert Tagged(x, done[n].src) in done; }
      if i: nat :| Tagged(x, i) in done && x != done[n].e { assert Tagged(x, i) in done[..n]; }
    }
  }

  lemma {:induction false} VisibleSorted(input: Sources, done: seq<Tagged>, p: Bounds, preserve: bool)
    requires DoneOk(input, done, p)
    ensures SortedRun(Visible(done, preserve))
  {
    if done != [] {
      var n := |done| - 1;
      var front := Visible(done[..n], preserve);
      VisibleSorted(input, done[..n], p, preserve);
      forall x | x in front ensures Before(x, done[n].e) {
        VisibleMembers(done[..n], preserve, x);
        var i: nat :| Tagged(x, i) in done[..n];
        var k :| 0 <= k < n && done[..n][k] == Tagged(x, i);
        assert Before(done[k].e, done[n].e);
      }
    }
  }

  /** With tombstones preserved everything chosen is handed out. */
  lemma {:induction false} VisibleAll(done: seq<Tagged>)
    ensures Visible(done, true) == Entries(done)
  {
    if done != [] {
      var n := |done| - 1;
      VisibleAll(done[..n]);
      assert Entries(done) == Entries(done[..n]) + [done[n].e];
    }
  }

  // ----- queries

  /** Queries bound the version from above and may drop any shadowed version below the largest 64-bit number. */
  function QueryBounds(highest: UInt64): Bounds { Bounds(highest, MAX_UINT64) }

  /** No copy of (x, i) to the left and no newer version that could replace it. */
  ghost predicate Unshadowed(s: Sources, p: Bounds, x: Entry, i: int) {
    && InSources(s, x, i) && Eligible(x, p)
    && forall y, j | InSources(s, y, j) && UKey(y) == UKey(x) && Eligible(y, p) ::
         !(Ver(x) < Ver(y) < p.minNonCompactable) && (Ver(y) == Ver(x) ==> i <= j)
  }

  /** The output is exactly the newest eligible version of every key (that is not deleted). */
  ghost predicate ExactResult(s: Sources, preserveTombstones: bool, highest: UInt64, out: seq<Entry>) {
    forall x :: x in out <==> (preserveTombstones || !IsTombstone(x))
                              && exists i: nat :: IsLatest(s, highest, x, i)
  }

  ghost predicate FromSources(s: Sources, out: seq<Entry>, highest: UInt64) {
    forall x | x in out :: exists i :: InSources(s, x, i) && Ver(x) <= highest
  }

  ghost predicate Complete(s: Sources, p: Bounds, out: seq<Entry>) {
    forall x, i | Unshadowed(s, p, x, i) :: x in out
  }

  /**
   A query merge, consumed by IsValid / Current / Next. Its result is sorted and comes from the
   sources. Unless an eligible version is the largest 64-bit number, which the merge treats as not
   compactable, it is exactly the newest version at most `highest` of every key, leftmost source
   first. When tombstones are dropped that holds if and only if deletes hold (MergeRounds). When they
   are kept, an eligible largest version does harm if and only if its key has another eligible version
   or the flag it leaves up holds back a version of the key that comes next (KeptRounds).
   */
  method Query(sources: Sources, preserveTombstones: bool, highest: UInt64) returns (out: seq<Entry>)
    requires SortedSources(sources)
    ensures SortedRun(out) && FromSources(sources, out, highest)
    ensures preserveTombstones ==> Complete(sources, QueryBounds(highest), out)
    ensures Compactable(sources, QueryBounds(highest)) && preserveTombstones ==>
              ExactResult(sources, true, highest, out)
    ensures Compactable(sources, QueryBounds(highest)) && !preserveTombstones
            ==> && out == Output(AllSeen(sources, QueryBounds(highest)))
                && (ExactResult(sources, false, highest, out) <==> DeletesHold(AllSeen(sources, QueryBounds(highest))))
    ensures preserveTombstones ==>
              (ExactResult(sources, true, highest, out) <==> KeptHolds(AllSeen(sources, QueryBounds(highest))))
    ensures preserveTombstones && highest == MAX_UINT64 && Uniform(sources, MAX_UINT64)
            ==> out == KeptOutput(sources, false, MAX_UINT64)
  {
    hide KeptOutput, Regular, KeptHolds, Uniform, ScanRound, Moved, Stands, KeptLeft;
    hide MergeInv, Finished, Compactable, Suffixes, Total, Visible, ExactResult, Complete, FromSources, NothingLeft;
    hide Least;
    hide NoneBelow, KeysDistinct, SortedRun, SortedSources, Output, AllSeen, DeletesHold, SeenWithout, SettledOn;
    hide NoneToShow;
    hide UKey, Ver;
    var p := QueryBounds(highest);
    var mi := new MergingIterator(sources, preserveTombstones, p);
    ghost var exact := Compactable(sources, p);
    ghost var all := Output(AllSeen(sources, p));
    ghost var kept := preserveTombstones && highest == MAX_UINT64 && Regular(sources, p);
    ghost var keptAll := KeptOutput(sources, false, MAX_UINT64);
    if kept { KeptStart(sources, p); }
    out := [];
    SuffixesRefl(sources);
    StartOutput(sources, p, preserveTombstones);
    while true
      invariant mi.Valid() && mi.input == sources && mi.bounds == p
      invariant mi.preserveTombstones == preserveTombstones
      invariant Suffixes(mi.iters, sources)
      invariant out == Visible(mi.done, preserveTombstones)
      invariant exact ==> !mi.noDropOnNext && Compactable(mi.iters, p) && (preserveTombstones ==> mi.KeysFinished())
      invariant exact && !preserveTombstones ==> out + Output(AllSeen(mi.iters, p)) == all
      invariant kept ==> Regular(mi.iters, p) && KeptLeft(mi.iters, mi.noDropOnNext, p, out, keptAll)
      decreases Total(mi.iters)
    {
      ghost var f, s0, flag := AllSeen(mi.iters, p), mi.iters, mi.noDropOnNext;
      var valid := Step(mi, sources, exact, out);
      if !valid {
        if exact && !preserveTombstones { NothingShown(f); }
        if kept { NoneKept(s0, flag, mi.iters, p, mi.currIndex, out, keptAll); }
        break;
      }
      ghost var outBefore := out;
      out := out + [mi.current];
      ghost var here := mi.iters;
      mi.Next();
      SuffixesTrans(mi.iters, here, sources);
      if exact { CompactableSuffixes(mi.iters, here, p); }
      if exact && !preserveTombstones { OneShown(f, here, mi.iters, mi.current, p); }
      if kept {
        OneKept(s0, flag, here, p, mi.currIndex, mi.current, mi.iters, mi.noDropOnNext, outBefore, keptAll);
      }
    }
    QueryMeaning(sources, mi.iters, mi.done, highest, preserveTombstones, exact && preserveTombstones, out);
    if exact && !preserveTombstones { OutputMeaning(sources, highest); }
    if preserveTombstones { KeptMeaning(sources, highest, out); }
  }

  // ----- queries that keep tombstones

  /**
   A key with the largest version has no other version. And at the turn of a key without it that comes
   after one with it, no source before the first that stands at another key still holds a version.
   */
  ghost predicate KeptHolds(f: Sources) { Uniform(f, MAX_UINT64) && FlagsHold(f, MAX_UINT64) }

  lemma {:induction false} AllEligible(s: Sources, p: Bounds)
    requires p.highest == MAX_UINT64
    ensures AllSeen(s, p) == s
  {
    forall j | 0 <= j < |s| ensures Seen(s[j], p) == s[j] { SeenAll(s[j], p); }
  }

  lemma {:induction false} SeenAll(run: seq<Entry>, p: Bounds)
    requires p.highest == MAX_UINT64
    ensures Seen(run, p) == run
  {
    if run != [] { SeenAll(run[1..], p); }
  }

  /** What has come out and what the sources have left make up all. */
  ghost predicate KeptLeft(s: Sources, flag: bool, p: Bounds, out: seq<Entry>, all: seq<Entry>) {
    Regular(s, p) && out + KeptOutput(s, flag, MAX_UINT64) == all
  }

  lemma {:induction false} KeptStart(s: Sources, p: Bounds)
    requires Regular(s, p)
    ensures KeptLeft(s, false, p, [], KeptOutput(s, false, MAX_UINT64))
  {
    hide KeptOutput;
  }

  lemma {:induction false} NoneKept(s: Sources, flag: bool, s': Sources, p: Bounds, i: nat, out: seq<Entry>,
                                    all: seq<Entry>)
    requires p.highest == MAX_UINT64 && ScanRound(AllSeen(s, p), s', p, false, i) && KeptLeft(s, flag, p, out, all)
    ensures out == all
  {
    AllEligible(s, p);
  }

  /** IsValid and Next together hand out the first entry of the output. */
  lemma {:induction false} OneKept(s: Sources, flag: bool, here: Sources, p: Bounds, i: nat, c: Entry, next: Sources,
                                   flag': bool, out: seq<Entry>, all: seq<Entry>)
    requires p == QueryBounds(MAX_UINT64) && ScanRound(AllSeen(s, p), here, p, true, i) && Regular(here, p)
    requires Stands(here, i, c) && Moved(here, flag, c, i, p, next, flag') && Suffixes(next, here)
    requires KeptLeft(s, flag, p, out, all)
    ensures KeptLeft(next, flag', p, out + [c], all) && Regular(next, p)
  {
    hide KeptOutput, Regular, Suffixes, ScanRound, Moved, AfterFlagged, FlagAfter, AllEmpty, Won, AllSeen;
    AllEligible(s, p);
    AllEligible(here, p);
    ScanHandsOut(s, here, p, i);
    MovesFlagged(s, flag, here, p, i, next, flag');
    KeptUnfold(s, flag, MAX_UINT64);
    RegularSuffixes(next, here, p);
    var rest := KeptOutput(next, flag', MAX_UINT64);
    assert out + ([c] + rest) == (out + [c]) + rest;
  }

  lemma {:induction false} MovesFlagged(s: Sources, flag: bool, here: Sources, p: Bounds, i: nat, next: Sources,
                                        flag': bool)
    requires !AllEmpty(s, |s|) && Stands(here, i, Won(s)) && DropHead(here, i) == HandedOut(s)
    requires Moved(here, flag, Won(s), i, p, next, flag')
    ensures next == AfterFlagged(s, flag, p.minNonCompactable) && flag' == FlagAfter(s, flag, p.minNonCompactable)
  {
    hide Won, HandedOut, NextSources, NextFlag, UKey, IsTop;
  }

  lemma {:induction false} ScanHandsOut(s: Sources, here: Sources, p: Bounds, i: nat)
    requires ScanRound(s, here, p, true, i) && AllSeen(here, p) == here
    ensures !AllEmpty(s, |s|) && Stands(here, i, Won(s)) && DropHead(here, i) == HandedOut(s)
  {
    hide AllSeen, Drops, Beats, UKey, Ver;
    BestUnique(s, |s|, i, Winner(s));
    BestNotDropped(s, |s|, i);
  }

  lemma {:induction false} KeptMeaning(sources: Sources, highest: UInt64, out: seq<Entry>)
    requires SortedSources(sources) && Complete(sources, QueryBounds(highest), out)
    requires Compactable(sources, QueryBounds(highest)) ==> ExactResult(sources, true, highest, out)
    requires highest == MAX_UINT64 && Regular(sources, QueryBounds(highest))
             ==> out == KeptOutput(sources, false, MAX_UINT64)
    ensures ExactResult(sources, true, highest, out) <==> KeptHolds(AllSeen(sources, QueryBounds(highest)))
    ensures highest == MAX_UINT64 && Uniform(sources, MAX_UINT64) ==> out == KeptOutput(sources, false, MAX_UINT64)
  {
    var p := QueryBounds(highest);
    hide ExactResult, KeptHolds, Complete, Compactable, KeptOutput, Uniform, SortedSources, AllSeen;
    if highest < MAX_UINT64 {
      BelowTheLargest(sources, highest);
    } else {
      AllEligible(sources, p);
      if Uniform(sources, MAX_UINT64) { UniformMeaning(sources); } else { NotUniform(sources, out); }
    }
  }

  lemma {:induction false} BelowTheLargest(sources: Sources, highest: UInt64)
    requires SortedSources(sources) && highest < MAX_UINT64
    ensures Compactable(sources, QueryBounds(highest)) && KeptHolds(AllSeen(sources, QueryBounds(highest)))
  {
    var p := QueryBounds(highest);
    hide UKey, Ver, AllSeen, SortedSources, ClearsAt, HasKey, KeyBefore;
    AllSeenOk(sources, p);
    forall k ensures HoldsAt(AllSeen(sources, p), MAX_UINT64, k) {}
  }

  lemma {:induction false} UniformMeaning(sources: Sources)
    requires SortedSources(sources) && Uniform(sources, MAX_UINT64)
    ensures ExactResult(sources, true, MAX_UINT64, KeptOutput(sources, false, MAX_UINT64)) <==> KeptHolds(sources)
  {
    hide KeptOutput, FlagsHold, Uniform, SortedSources, IsLatest, Newest, UKey, Ver;
    KeptExactIff(sources, MAX_UINT64);
    AllEligible(sources, QueryBounds(MAX_UINT64));
    forall x
      ensures ExactAt(sources, false, MAX_UINT64, x) <==>
              (x in KeptOutput(sources, false, MAX_UINT64) <==> exists i: nat :: IsLatest(sources, MAX_UINT64, x, i))
    {
      forall i: nat ensures IsLatest(sources, MAX_UINT64, x, i) <==> Newest(sources, x, i) {
        LatestIsNewest(sources, MAX_UINT64, x, i);
      }
    }
  }

  /** The newest version below the largest comes out besides the largest. */
  lemma {:induction false} NotUniform(sources: Sources, out: seq<Entry>)
    requires SortedSources(sources) && Complete(sources, QueryBounds(MAX_UINT64), out)
    requires !Uniform(sources, MAX_UINT64)
    ensures !ExactResult(sources, true, MAX_UINT64, out) && !KeptHolds(sources)
  {
    var x, i, y, j :| InSources(sources, x, i) && InSources(sources, y, j) && UKey(x) == UKey(y)
      && IsTop(x, MAX_UINT64) && Ver(y) != Ver(x);
    var z, l := NewestBelow(sources, y, j);
    hide UKey, Ver, SortedSources, FlagsHold;
    assert z in out;
    assert forall m: nat :: !IsLatest(sources, MAX_UINT64, z, m);
  }

  lemma {:induction false} NewestBelow(s: Sources, y: Entry, j: nat) returns (z: Entry, i: nat)
    requires SortedSources(s) && InSources(s, y, j) && Ver(y) < MAX_UINT64
    ensures Unshadowed(s, QueryBounds(MAX_UINT64), z, i) && UKey(z) == UKey(y) && Ver(z) < MAX_UINT64
  {
    var p := QueryBounds(MAX_UINT64 - 1);
    hide UKey, Ver, SortedSources, AllSeen;
    AllSeenOk(s, p);
    z, i := NewestOf(AllSeen(s, p), y, j);
  }

  // ----- queries that drop them

  lemma {:induction false} NothingShown(f: Sources)
    requires NoneToShow(f)
    ensures Output(f) == []
  {
  }

  /** IsValid and Next together hand out the first entry of the output. */
  lemma {:induction false} OneShown(f: Sources, here: Sources, next: Sources, c: Entry, p: Bounds)
    requires SettledOn(f, here, c, p)
    requires |next| == |here| && forall j | 0 <= j < |here| :: SeenWithout(here[j], next[j], p, UKey(c))
    ensures Output(f) == [c] + Output(AllSeen(next, p))
  {
    var t, r := PastTombstones(f), AllSeen(next, p);
    hide Output, PastTombstones, BestOf, AllEmpty, IsTombstone, WithoutKey, Seen, Drops;
    assert |AllSeen(here, p)| == |t|;
    forall j | 0 <= j < |t| ensures r[j] == WithoutKey(AfterScan(t, |t|)[j], UKey(Won(t))) {
      assert SeenWithout(here[j], next[j], p, UKey(c));
    }
    ValueRound(t, r);
  }

  /** Source i stands at c. */
  predicate Stands(s: Sources, i: nat, c: Entry) { i < |s| && s[i] != [] && s[i][0] == c }

  /** One call of IsValid by the consumer, with what it means for the output so far. */
  method Step(mi: MergingIterator, ghost sources: Sources, ghost exact: bool, ghost out: seq<Entry>)
    returns (valid: bool)
    requires mi.Valid() && Suffixes(mi.iters, sources) && out == Visible(mi.done, mi.preserveTombstones)
    requires exact ==> Compactable(mi.iters, mi.bounds) && (mi.preserveTombstones ==> mi.KeysFinished())
    modifies mi`iters, mi`current, mi`currIndex, mi`done
    ensures mi.Valid() && Suffixes(mi.iters, sources) && out == Visible(mi.done, mi.preserveTombstones)
    ensures Total(mi.iters) <= Total(old(mi.iters))
    ensures if valid then mi.Positioned() && Stands(mi.iters, mi.currIndex, mi.current)
            else NothingLeft(mi.iters, mi.bounds)
    ensures exact ==> Compactable(mi.iters, mi.bounds) && (mi.preserveTombstones ==> mi.KeysFinished())
    ensures exact && valid ==> Ver(mi.current) < mi.bounds.minNonCompactable
    ensures exact && !mi.preserveTombstones ==> mi.Settled(AllSeen(old(mi.iters), mi.bounds), valid)
    ensures Regular(old(mi.iters), mi.bounds) && mi.preserveTombstones ==>
              Regular(mi.iters, mi.bounds)
              && ScanRound(AllSeen(old(mi.iters), mi.bounds), mi.iters, mi.bounds, valid, mi.currIndex)
    ensures valid ==> Visible(mi.done + [Tagged(mi.current, mi.currIndex)], mi.preserveTombstones) == out + [mi.current]
    ensures !valid && exact && mi.preserveTombstones ==> KeysDistinct(mi.done)
    ensures old(mi.Positioned()) ==> valid && mi.current == old(mi.current)
  {
    hide MergeInv, Compactable, Suffixes, Total, Visible, NothingLeft, Least, NoneBelow, AllSeen, Regular, ScanRound;
    ghost var before, done0 := mi.iters, mi.done;
    if exact { CompactableIsRegular(before, mi.bounds); }
    valid := mi.IsValid();
    SuffixesTrans(mi.iters, before, sources);
    TotalSuffixes(mi.iters, before);
    VisibleTombstones(done0, mi.done, mi.preserveTombstones);
    if exact { CompactableSuffixes(mi.iters, before, mi.bounds); }
    if valid {
      LeastInRange(mi.iters, mi.currIndex, mi.bounds);
      VisiblePush(mi.done, Tagged(mi.current, mi.currIndex), mi.preserveTombstones);
      if exact { CurrentCompactable(mi.iters, mi.bounds, mi.currIndex); }
    }
  }

  lemma {:induction false} StartOutput(sources: Sources, p: Bounds, preserve: bool)
    ensures Visible([], preserve) == [] && Finished(sources, [], p)
  {
  }

  lemma {:induction false} CurrentCompactable(s: Sources, p: Bounds, i: nat)
    requires Compactable(s, p) && Least(s, i, p)
    ensures Ver(s[i][0]) < p.minNonCompactable
  {
    assert InSources(s, s[i][0], i);
  }

  /** The output over what is seen is exact for the query if and only if deletes hold. */
  lemma {:induction false} OutputMeaning(sources: Sources, highest: UInt64)
    requires SortedSources(sources)
    ensures var f := AllSeen(sources, QueryBounds(highest));
            ExactResult(sources, false, highest, Output(f)) <==> DeletesHold(f)
  {
    var p := QueryBounds(highest);
    var f := AllSeen(sources, p);
    hide Output, DeletesHold, AllSeen, UKey, Ver;
    AllSeenOk(sources, p);
    ExactIffDeletesHold(f);
    forall x, i: nat ensures IsLatest(sources, highest, x, i) <==> Newest(f, x, i) {
      LatestIsNewest(sources, highest, x, i);
    }
  }

  lemma {:induction false} LatestIsNewest(sources: Sources, highest: UInt64, x: Entry, i: nat)
    requires SortedSources(sources)
    ensures IsLatest(sources, highest, x, i) <==> Newest(AllSeen(sources, QueryBounds(highest)), x, i)
  {
    hide AllSeen, UKey, Ver, SortedSources;
    AllSeenOk(sources, QueryBounds(highest));
  }

  lemma {:induction false} QueryMeaning(sources: Sources, iters: Sources, done: seq<Tagged>, highest: UInt64,
                                        preserve: bool, exact: bool, out: seq<Entry>)
    requires MergeInv(sources, iters, done, QueryBounds(highest)) && NothingLeft(iters, QueryBounds(highest))
    requires out == Visible(done, preserve)
    requires exact ==> KeysDistinct(done)
    ensures SortedRun(out) && FromSources(sources, out, highest)
    ensures exact ==> ExactResult(sources, preserve, highest, out)
    ensures preserve ==> Complete(sources, QueryBounds(highest), out)
  {
    var p := QueryBounds(highest);
    VisibleSorted(sources, done, p, preserve);
    VisibleFromSources(sources, done, p, preserve);
    if preserve { VisibleComplete(sources, iters, done, p); }
    forall x | exact
      ensures x in out <==> (preserve || !IsTombstone(x)) && exists i: nat :: IsLatest(sources, highest, x, i)
    {
      VisibleMembers(done, preserve, x);
      forall i: nat ensures Tagged(x, i) in done <==> IsLatest(sources, highest, x, i) {
        ChosenAreLatest(sources, iters, done, p, x, i);
      }
    }
  }

  lemma {:induction false} VisibleFromSources(input: Sources, done: seq<Tagged>, p: Bounds, preserve: bool)
    requires DoneOk(input, done, p)
    ensures FromSources(input, Visible(done, preserve), p.highest)
  {
    forall x | x in Visible(done, preserve) ensures exists i :: InSources(input, x, i) && Ver(x) <= p.highest {
      VisibleMembers(done, preserve, x);
      var i: nat :| Tagged(x, i) in done;
      var k :| 0 <= k < |done| && done[k] == Tagged(x, i);
      assert InSources(input, x, i);
    }
  }

  lemma {:induction false} VisibleComplete(input: Sources, iters: Sources, done: seq<Tagged>, p: Bounds)
    requires MergeInv(input, iters, done, p) && NothingLeft(iters, p)
    ensures Complete(input, p, Visible(done, true))
  {
    forall x, i | Unshadowed(input, p, x, i) ensures x in Visible(done, true) {
      UnshadowedIsChosen(input, iters, done, p, x, i);
      VisibleMembers(done, true, x);
    }
  }

  /**
   What an eligible largest version does to the result. First kind: a key that has it together with an
   older version comes out twice.
   */
  method QueryShowsMaxVersionTwice(k: Bytes, v: UInt64) returns (out: seq<Entry>)
    requires v < MAX_UINT64
    ensures KV(EncodeVersion(k, MAX_UINT64), [1]) in out && KV(EncodeVersion(k, v), [1]) in out
  {
    var x, y := KV(EncodeVersion(k, MAX_UINT64), [1]), KV(EncodeVersion(k, v), [1]);
    MaxVersionUnshadowed(k, v, x, y);
    hide UKey, Ver, Unshadowed, SortedRun, Before, EncodeVersion;
    out := Query([[x, y]], true, MAX_UINT64);
  }

  lemma {:induction false} MaxVersionUnshadowed(k: Bytes, v: UInt64, x: Entry, y: Entry)
    requires v < MAX_UINT64
    requires x == KV(EncodeVersion(k, MAX_UINT64), [1]) && y == KV(EncodeVersion(k, v), [1])
    ensures SortedSources([[x, y]])
    ensures Unshadowed([[x, y]], QueryBounds(MAX_UINT64), x, 0)
    ensures Unshadowed([[x, y]], QueryBounds(MAX_UINT64), y, 0)
  {
    VersionedParts(k, MAX_UINT64, [1]);
    VersionedParts(k, v, [1]);
    hide UKey, Ver;
    assert forall e, i | InSources([[x, y]], e, i) :: i == 0 && (e == x || e == y);
  }

  /**
   Second kind: the largest version is the only one of its key a, but the next key in the same table, b,
   has two versions. The flag is still up when b is handed out, and b comes out twice.
   */
  method QueryShowsNextKeyTwice(a: Bytes, b: Bytes, v: UInt64, w: UInt64) returns (out: seq<Entry>)
    requires Less(a, b) && w < v < MAX_UINT64
    ensures out == [KV(EncodeVersion(a, MAX_UINT64), [1]), KV(EncodeVersion(b, v), [1]), KV(EncodeVersion(b, w), [1])]
  {
    var x, y, z := KV(EncodeVersion(a, MAX_UINT64), [1]), KV(EncodeVersion(b, v), [1]), KV(EncodeVersion(b, w), [1]);
    VersionedParts(a, MAX_UINT64, [1]);
    VersionedParts(b, v, [1]);
    VersionedParts(b, w, [1]);
    hide UKey, Ver, EncodeVersion;
    ThreeSorted(x, y, z);
    NextKeyKept(x, y, z);
    hide SortedSources, Uniform, KeptOutput, AllSeen;
    out := Query([[x, y, z]], true, MAX_UINT64);
  }

  lemma {:induction false} ThreeSorted(x: Entry, y: Entry, z: Entry)
    requires Less(UKey(x), UKey(y)) && UKey(y) == UKey(z) && Ver(z) < Ver(y) < Ver(x) == MAX_UINT64
    ensures SortedSources([[x, y, z]]) && Uniform([[x, y, z]], MAX_UINT64)
  {
    RankOrder(UKey(x), UKey(y));
    hide UKey, Ver, Less;
    forall e, i | InSources([[x, y, z]], e, i) ensures e == x || e == y || e == z {}
  }

  lemma {:induction false} NextKeyKept(x: Entry, y: Entry, z: Entry)
    requires UKey(y) == UKey(z) && Ver(y) < Ver(x) == MAX_UINT64
    ensures KeptOutput([[x, y, z]], false, MAX_UINT64) == [x, y, z]
  {
    hide UKey, Ver, KeptOutput;
    assert [x, y, z][1..] == [y, z] && [y, z][1..] == [z] && [z][1..] == [];
    OneSourceKept([x, y, z], false, MAX_UINT64);
    OneSourceKept([y, z], true, MAX_UINT64);
    OneSourceKept([z], true, MAX_UINT64);
    NothingKept(true);
  }

  lemma {:induction false} NothingKept(flag: bool)
    ensures KeptOutput([[]], flag, MAX_UINT64) == []
  {
  }

  /** With one source its head comes out, and what follows stays if the head is a top or the flag is up. */
  lemma {:induction false} OneSourceKept(run: seq<Entry>, flag: bool, b: UInt64)
    requires run != [] && (flag || IsTop(run[0], b))
    ensures var flag' := IsTop(run[0], b) || run[1..] == [] || UKey(run[1]) == UKey(run[0]);
            KeptOutput([run], flag, b) == [run[0]] + KeptOutput([run[1..]], flag', b)
  {
    var s := [run];
    assert Winner(s) == 0;
    assert HandedOut(s) == [run[1..]];
    hide KeptOutput, BestOf, UKey, IsTop, WithoutKey;
    KeptUnfold(s, flag, b);
    var r, k := HandedOut(s), UKey(run[0]);
    assert Stuck(r, k, 0);
    assert Stuck(r, k, 1) <==> !StandsElsewhere(r, k, 0);
    assert NextSources(r, k, true) == r;
  }

  lemma {:induction false} VersionedParts(k: Bytes, v: UInt64, value: Bytes)
    ensures var e := KV(EncodeVersion(k, v), value); UKey(e) == k && Ver(e) == v
  {
    var e := KV(EncodeVersion(k, v), value);
    assert e.key[..|e.key| - 8] == k && e.key[|e.key| - 8..] == EncodeUint64(MAX_UINT64 - v);
    Uint64Codec(MAX_UINT64 - v, MAX_UINT64 - v);
  }

  /**
   A deleted key comes back: a delete at v followed, in the same table, by an older value at w. The
   tombstone is passed and the value handed out.
   */
  method QueryShowsDeleted(k: Bytes, v: UInt64, w: UInt64, value: Bytes, highest: UInt64) returns (out: seq<Entry>)
    requires w < v <= highest && v < MAX_UINT64 && value != []
    ensures out == [KV(EncodeVersion(k, w), value)]
  {
    var x, y := KV(EncodeVersion(k, v), []), KV(EncodeVersion(k, w), value);
    VersionedParts(k, v, []);
    VersionedParts(k, w, value);
    hide UKey, Ver, EncodeVersion;
    DeletedThenValue(x, y, QueryBounds(highest));
    hide SortedSources, Compactable, AllSeen, Output, DeletesHold;
    out := Query([[x, y]], false, highest);
  }

  lemma {:induction false} DeletedThenValue(x: Entry, y: Entry, p: Bounds)
    requires UKey(x) == UKey(y) && Ver(y) < Ver(x) <= p.highest && Ver(x) < p.minNonCompactable
    requires IsTombstone(x) && !IsTombstone(y)
    ensures SortedSources([[x, y]]) && Compactable([[x, y]], p)
    ensures Output(AllSeen([[x, y]], p)) == [y]
  {
    hide UKey, Ver;
    var f := AllSeen([[x, y]], p);
    assert Seen([y], p) == [y];
    assert [x, y][1..] == [y];
    assert Seen([x, y], p) == [x, y];
    assert f == [[x, y]];
    OneSourceRound(f);
    assert AfterRound(f) == [[y]];
    OneSourceRound([[y]]);
    assert Output([[]]) == [];
    assert WithoutKey([y], UKey(y)) == [];
  }

  /** With one source its head wins and nothing else moves. */
  lemma {:induction false} OneSourceRound(s: Sources)
    requires |s| == 1 && s[0] != []
    ensures !AllEmpty(s, 1) && Won(s) == s[0][0]
    ensures IsTombstone(s[0][0]) ==> AfterRound(s) == [s[0][1..]] && Output(s) == Output([s[0][1..]])
    ensures !IsTombstone(s[0][0])
            ==> Output(s) == [s[0][0]] + Output([WithoutKey(s[0], UKey(s[0][0]))])
  {
    assert Winner(s) == 0;
    BestNotDropped(s, 1, 0);
    assert AfterRoundAt(s, 0) == if IsTombstone(s[0][0]) then s[0][1..] else WithoutKey(s[0], UKey(s[0][0]));
    RoundProgress(s);
    assert AfterRound(s) == [AfterRoundAt(s, 0)];
  }

  // ----- chaining the tables of a run

  function Concat<T>(runs: seq<seq<T>>): seq<T> {
    if runs == [] then [] else runs[0] + Concat(runs[1..])
  }

  /** What a ChainingIterator yields: it stops for good at the first source that is empty. */
  function ChainView<T(==)>(runs: seq<seq<T>>): seq<T> {
    if runs == [] || runs[0] == [] then [] else runs[0] + ChainView(runs[1..])
  }

  /** iteration/chaining_iter.go. */
  class ChainingIterator {
    var iterators: seq<seq<Entry>>
    var pos: nat

    ghost predicate Valid()
      reads this
    {
      pos <= |iterators|
    }

    /** The entries still to come. */
    ghost function Remaining(): seq<Entry>
      requires Valid()
      reads this
    {
      ChainView(iterators[pos..])
    }

    constructor (its: seq<seq<Entry>>)
      ensures Valid() && Remaining() == ChainView(its)
    {
      iterators, pos := its, 0;
      new;
      assert its[0..] == its;
    }

    method IsValid() returns (valid: bool)
      requires Valid()
      ensures valid <==> Remaining() != []
    {
      if pos >= |iterators| { return false; }
      assert iterators[pos..][0] == iterators[pos];
      return iterators[pos] != [];
    }

    method Current() returns (e: Entry)
      requires Valid() && Remaining() != []
      ensures e == Remaining()[0]
    {
      assert iterators[pos..][0] == iterators[pos];
      e := iterators[pos][0];
    }

    method Next()
      requires Valid() && Remaining() != []
      modifies this
      ensures Valid() && Remaining() == old(Remaining())[1..]
    {
      ghost var rest := iterators[pos + 1..];
      assert iterators[pos..] == [iterators[pos]] + rest;
      ghost var before := iterators[pos];
      iterators := iterators[pos := iterators[pos][1..]];
      assert iterators[pos..] == [iterators[pos]] + rest;
      if iterators[pos] == [] {
        pos := pos + 1;
        assert iterators[pos..] == rest;
      }
    }
  }

  /**
   A chain yields all its sources exactly when nothing follows the first empty one; otherwise the
   entries after it are lost.
   */
  lemma {:induction false} ChainYieldsAll<T>(runs: seq<seq<T>>)
    ensures ChainView(runs) == Concat(runs)
            <==> forall i, j | 0 <= i < j < |runs| && runs[i] == [] :: runs[j] == []
  {
    if runs != [] {
      ChainYieldsAll(runs[1..]);
      ConcatEmpty(runs[1..]);
      assert runs == [runs[0]] + runs[1..];
      if runs[0] == [] {
        assert Concat(runs) == Concat(runs[1..]);
        assert forall j | 0 <= j < |runs| - 1 :: runs[1..][j] == runs[j + 1];
      } else {
        assert ChainView(runs)[|runs[0]|..] == ChainView(runs[1..]);
        assert Concat(runs)[|runs[0]|..] == Concat(runs[1..]);
        assert forall j | 0 <= j < |runs| - 1 :: runs[1..][j] == runs[j + 1];
      }
    }
  }

  lemma {:induction false} ConcatEmpty<T>(runs: seq<seq<T>>)
    ensures Concat(runs) == [] <==> forall i | 0 <= i < |runs| :: runs[i] == []
  {
    if runs != [] {
      ConcatEmpty(runs[1..]);
      assert forall j | 0 <= j < |runs| - 1 :: runs[1..][j] == runs[j + 1];
    }
  }

  lemma {:induction false} ConcatPush<T>(runs: seq<seq<T>>, r: seq<T>)
    ensures Concat(runs + [r]) == Concat(runs) + r
  {
    if runs == [] {
      assert runs + [r] == [r] && Concat([r]) == r + Concat([]) == r;
    } else {
      ConcatPush(runs[1..], r);
      assert (runs + [r])[1..] == runs[1..] + [r];
    }
  }

  // ----- cutting the merged output into tables

  /** levels/iters.go: stops at the size limit, but never between versions of one key. */
  class MaxSizeIterator {
    const iter: MergingIterator
    const maxSize: nat
    var size: nat
    var lastKey: Option<Bytes>

    constructor (maxSize: nat, iter: MergingIterator)
      ensures this.iter == iter && this.maxSize == maxSize && size == 21 && lastKey == None
    {
      this.iter, this.maxSize, this.size, this.lastKey := iter, maxSize, 21, None;
    }

    method IsValid() returns (valid: bool)
      requires iter.Valid() && (lastKey.Some? ==> |lastKey.value| >= 8)
      modifies iter`iters, iter`current, iter`currIndex, iter`done
      ensures iter.Progress(old(iter.iters), old(iter.done), old(iter.KeysFinished()))
      ensures valid ==> iter.Positioned()
      ensures !valid ==> NothingLeft(iter.iters, iter.bounds)
                         || (iter.Positioned() && size >= maxSize
                             && (lastKey.Some? ==> lastKey.value[..|lastKey.value| - 8] != UKey(iter.current)))
      ensures valid && size >= maxSize ==>
                lastKey.Some? && lastKey.value[..|lastKey.value| - 8] == UKey(iter.current)
      ensures old(iter.Positioned()) ==> iter.Positioned() && iter.current == old(iter.current)
      ensures old(iter.Positioned()) && size < maxSize ==> valid
    {
      hide MergeInv, Least, NoneBelow, NothingLeft;
      valid := iter.IsValid();
      if valid && lastKey.Some? {
        if lastKey.value[..|lastKey.value| - 8] == UKey(iter.current) { return true; }
      }
      if size >= maxSize { return false; }
    }

    method Next()
      requires iter.Positioned()
      modifies this`size, this`lastKey, iter`iters, iter`done, iter`noDropOnNext
      ensures iter.Valid() && Suffixes(iter.iters, old(iter.iters)) && Total(iter.iters) < Total(old(iter.iters))
      ensures iter.done == old(iter.done) + [Tagged(iter.current, iter.currIndex)]
      ensures lastKey == Some(iter.current.key)
      ensures size == old(size) + 12 + 2 * |iter.current.key| + |iter.current.value|
    {
      hide MergeInv, Least, NoneBelow, Suffixes, Total;
      var curr := iter.current;
      size := size + 12 + 2 * |curr.key| + |curr.value|;
      lastKey := Some(curr.key);
      iter.Next();
    }
  }

  /** The estimate of a table's size, in the data and in its index. */
  function SizeOf(es: seq<Entry>): nat {
    if es == [] then 21 else var n := |es| - 1; SizeOf(es[..n]) + 12 + 2 * |es[n].key| + |es[n].value|
  }

  lemma {:induction false} SizeGrows(es: seq<Entry>, e: Entry)
    ensures SizeOf(es + [e]) == SizeOf(es) + 12 + 2 * |e.key| + |e.value|
  {
    assert (es + [e])[..|es|] == es;
  }

  /** Where a new key begins, the limit has not been reached. */
  ghost predicate CutInTime(table: seq<Entry>, maxSize: nat) {
    forall m | 0 < m < |table| && UKey(table[m]) != UKey(table[m - 1]) :: SizeOf(table[..m]) < maxSize
  }

  lemma {:induction false} CutLater(table: seq<Entry>, e: Entry, maxSize: nat)
    requires CutInTime(table, maxSize)
    requires table == [] || UKey(e) == UKey(table[|table| - 1]) || SizeOf(table) < maxSize
    ensures CutInTime(table + [e], maxSize)
  {
    hide SizeOf, UKey;
    var r := table + [e];
    forall m | 0 < m < |r| && UKey(r[m]) != UKey(r[m - 1]) ensures SizeOf(r[..m]) < maxSize {
      assert r[..m] == table[..m];
      assert table[..|table|] == table;
    }
  }

  /** Every table is cut in time, and all but the last are full. */
  ghost predicate CutToSize(tables: seq<seq<Entry>>, maxSize: nat) {
    && (forall i | 0 <= i < |tables| :: CutInTime(tables[i], maxSize))
    && (forall i | 0 <= i < |tables| - 1 :: SizeOf(tables[i]) >= maxSize)
  }

  /** The last entry of a non-empty table precedes, on unversioned keys, the first of the next. */
  ghost predicate TablesApart(tables: seq<seq<Entry>>) {
    && (forall i | 0 <= i < |tables| :: tables[i] != [])
    && (forall i, j | 0 <= i < j < |tables| ::
          forall x, y | x in tables[i] && y in tables[j] :: Less(UKey(x), UKey(y)))
  }

  ghost predicate KeysAbove(tables: seq<seq<Entry>>, e: Entry) {
    forall i, x | 0 <= i < |tables| && x in tables[i] :: Less(UKey(x), UKey(e))
  }

  /** Entries handed out precede what the iterator is positioned on. */
  lemma {:induction false} VisibleBeforeCurrent(input: Sources, s: Sources, done: seq<Tagged>, p: Bounds, i: nat,
                                                preserve: bool)
    requires MergeInv(input, s, done, p) && Least(s, i, p)
    ensures forall x | x in Visible(done, preserve) :: Before(x, s[i][0])
  {
    assert InSources(s, s[i][0], i);
    forall x | x in Visible(done, preserve) ensures Before(x, s[i][0]) {
      VisibleMembers(done, preserve, x);
      var k: nat :| Tagged(x, k) in done;
    }
  }

  lemma {:induction false} ConcatMembers<T>(runs: seq<seq<T>>, x: T)
    ensures x in Concat(runs) <==> exists i | 0 <= i < |runs| :: x in runs[i]
  {
    if runs != [] {
      ConcatMembers(runs[1..], x);
      if i :| 0 <= i < |runs| && x in runs[i] { assert i > 0 ==> x in runs[1..][i - 1]; }
      if i :| 0 <= i < |runs[1..]| && x in runs[1..][i] { assert x in runs[i + 1]; }
    }
  }

  /**
   Between two tables the key changes: everything handed out so far is below what comes next,
   because the last entry is not a version of the next key.
   */
  lemma {:induction false} CutBetweenKeys(out: seq<seq<Entry>>, last: Entry, c: Entry)
    requires out != [] && out[|out| - 1] != [] && last == out[|out| - 1][|out[|out| - 1]| - 1]
    requires SortedRun(Concat(out)) && forall x | x in Concat(out) :: Before(x, c)
    requires UKey(last) != UKey(c)
    ensures KeysAbove(out, c)
  {
    var n := |out| - 1;
    assert out == out[..n] + [out[n]];
    ConcatPush(out[..n], out[n]);
    var all := Concat(out);
    assert all[|all| - 1] == last;
    ConcatMembers(out, last);
    RankOrder(UKey(last), UKey(c));
    forall i, x | 0 <= i < |out| && x in out[i] ensures Less(UKey(x), UKey(c)) {
      ConcatMembers(out, x);
      var k :| 0 <= k < |all| && all[k] == x;
      RankOrder(UKey(x), UKey(last));
      RankOrder(UKey(x), UKey(c));
      if k < |all| - 1 { assert Before(all[k], all[|all| - 1]); }
    }
  }

  /** A table whose first entry is above all tables so far extends them. */
  lemma {:induction false} ApartPush(out: seq<seq<Entry>>, t: seq<Entry>)
    requires TablesApart(out) && t != [] && KeysAbove(out, t[0]) && SortedRun(t)
    ensures TablesApart(out + [t])
  {
    var r := out + [t];
    forall i, j, x, y | 0 <= i < j < |r| && x in r[i] && y in r[j] ensures Less(UKey(x), UKey(y)) {
      if j == |out| {
        var k :| 0 <= k < |t| && t[k] == y;
        RankOrder(UKey(x), UKey(t[0]));
        RankOrder(UKey(t[0]), UKey(y));
        RankOrder(UKey(x), UKey(y));
        if k > 0 { assert Before(t[0], t[k]); }
      }
    }
  }

  /** sst.BuildSSTable: drains the size-limited iterator. */
  method BuildTable(me: MaxSizeIterator, ghost sofar: seq<Entry>) returns (table: seq<Entry>)
    requires me.iter.Positioned() && me.size == 21 < me.maxSize && me.lastKey == None
    requires sofar == Visible(me.iter.done, me.iter.preserveTombstones)
    modifies me`size, me`lastKey, me.iter`iters, me.iter`current, me.iter`currIndex, me.iter`done, me.iter`noDropOnNext
    ensures me.iter.Valid() && Total(me.iter.iters) < Total(old(me.iter.iters))
    ensures Visible(me.iter.done, me.iter.preserveTombstones) == sofar + table
    ensures table != [] && table[0] == old(me.iter.current) && CutInTime(table, me.maxSize)
    ensures NothingLeft(me.iter.iters, me.iter.bounds)
            || (me.iter.Positioned() && UKey(me.iter.current) != UKey(table[|table| - 1])
                && SizeOf(table) >= me.maxSize)
  {
    hide MergeInv, Least, NoneBelow, Suffixes, Total, NothingLeft, Finished, Visible, FirstsPassed, OthersPast, SizeOf;
    hide CutInTime;
    table := [];
    NothingCut(me.maxSize);
    while true
      invariant me.iter.Valid() && (table == [] ==> me.iter.Positioned() && me.iter.current == old(me.iter.current))
      invariant Visible(me.iter.done, me.iter.preserveTombstones) == sofar + table
      invariant if table == [] then me.size < me.maxSize && me.lastKey == None
                else table[0] == old(me.iter.current) && me.lastKey == Some(table[|table| - 1].key)
      invariant me.size == SizeOf(table) && CutInTime(table, me.maxSize)
      invariant Total(me.iter.iters) <= Total(old(me.iter.iters))
      invariant table != [] ==> Total(me.iter.iters) < Total(old(me.iter.iters))
      decreases Total(me.iter.iters)
    {
      ghost var before, done0 := me.iter.iters, me.iter.done;
      var valid := me.IsValid();
      TotalSuffixes(me.iter.iters, before);
      VisibleTombstones(done0, me.iter.done, me.iter.preserveTombstones);
      if !valid { break; }
      VisiblePush(me.iter.done, Tagged(me.iter.current, me.iter.currIndex), me.iter.preserveTombstones);
      SizeGrows(table, me.iter.current);
      CutLater(table, me.iter.current, me.maxSize);
      table := table + [me.iter.current];
      me.Next();
    }
  }

  lemma {:induction false} NothingCut(maxSize: nat)
    ensures SizeOf([]) == 21 && CutInTime([], maxSize)
  {
  }

  /** mergeSSTables' bound: nothing flushed yet means nothing may be overwritten. */
  function MinNonCompactable(lastFlushedVersion: int): UInt64
    requires -1 <= lastFlushedVersion < TWO63
  {
    if lastFlushedVersion == -1 then 0 else lastFlushedVersion
  }

  function CompactionBounds(lastFlushedVersion: int): Bounds
    requires -1 <= lastFlushedVersion < TWO63
  {
    Bounds(MAX_UINT64, MinNonCompactable(lastFlushedVersion))
  }

  function ChainViews(runs: seq<seq<seq<Entry>>>): (r: Sources)
    ensures |r| == |runs| && forall i | 0 <= i < |r| :: r[i] == ChainView(runs[i])
  {
    seq(|runs|, i requires 0 <= i < |runs| => ChainView(runs[i]))
  }

  /** Every snapshot at or above the bound reads the same entry of every key from out as from s. */
  ghost predicate SameSnapshots(s: Sources, out: seq<Entry>, bound: int) {
    forall v, x | bound <= v <= MAX_UINT64 ::
      (exists i: nat :: IsLatest(s, v, x, i)) <==> IsLatest([out], v, x, 0)
  }

  /** Every value that a snapshot at or above the bound reads from s, it reads from out. */
  ghost predicate LiveKept(s: Sources, out: seq<Entry>, bound: int) {
    forall v, x | bound <= v <= MAX_UINT64 && !IsTombstone(x) && (exists i: nat :: IsLatest(s, v, x, i)) ::
      IsLatest([out], v, x, 0)
  }

  ghost predicate LatestIn(s: Sources, v: int, x: Entry) { exists i: nat :: IsLatest(s, v, x, i) }

  /** The newest version of k up to v is a tombstone. */
  ghost predicate DeletedIn(s: Sources, v: int, k: Bytes) {
    exists t :: LatestIn(s, v, t) && UKey(t) == k && IsTombstone(t)
  }

  ghost predicate SameLatest(s: Sources, out: seq<Entry>, v: int, k: Bytes) {
    forall x: Entry | UKey(x) == k :: LatestIn(s, v, x) <==> IsLatest([out], v, x, 0)
  }

  /** Every snapshot at or above the bound reads the same of every key that is not deleted in it. */
  ghost predicate LiveSame(s: Sources, out: seq<Entry>, bound: int) {
    forall v, k | bound <= v <= MAX_UINT64 && !DeletedIn(s, v, k) :: SameLatest(s, out, v, k)
  }

  /** Every value that nothing compactable replaces is in out. */
  ghost predicate LiveComplete(s: Sources, p: Bounds, out: seq<Entry>) {
    forall x, i | Unshadowed(s, p, x, i) && !IsTombstone(x) :: x in out
  }

  /** Key k is deleted below the bound, and each source has at most one value of it, before its tombstones. */
  ghost predicate DeleteHolds(s: Sources, k: Bytes, bound: int) {
    && (exists t, i: nat :: Newest(s, t, i) && UKey(t) == k && IsTombstone(t) && Ver(t) < bound)
    && forall x, j | InSources(s, x, j) && UKey(x) == k && !IsTombstone(x) :: IsFirst(s, x, j)
  }

  /** What is deleted so is gone. */
  ghost predicate DeletesDone(s: Sources, out: seq<Entry>, bound: int) {
    forall k, x | DeleteHolds(s, k, bound) && x in out :: UKey(x) != k
  }

  ghost predicate NoTombstones(out: seq<Entry>) { forall x | x in out :: !IsTombstone(x) }

  ghost predicate AllKeysIn(s: Sources, u: iset<Bytes>) {
    forall i | 0 <= i < |s| :: KeysIn(s[i], u)
  }

  /**
   mergeSSTables: merges the runs of a compaction job and cuts the result into tables. The tables
   are non-empty, disjoint on unversioned keys and, laid end to end, sorted bytewise and drawn from
   the input; with tombstones preserved, every snapshot at or above the last flushed version reads
   the same from them as from the input, and an entry at or above that version is lost only to an
   exact copy in an earlier run. Whether tombstones are preserved or not, no value is lost that such
   a snapshot reads. Without them none is written, and a key that is deleted below the bound is gone, if
   no run has an older value behind its newest version of the key. Tables are cut to size: all but the last are full,
   and a full one ends with the versions of one key. Runs must be sorted bytewise and all keys belong to a
   prefix-free set u.
   */
  method MergeSSTables(runs: seq<seq<seq<Entry>>>, preserveTombstones: bool, maxTableSize: nat,
                       lastFlushedVersion: int, ghost u: iset<Bytes>)
    returns (tables: seq<seq<Entry>>)
    requires -1 <= lastFlushedVersion < TWO63 && maxTableSize > 21
    requires PrefixFree(u) && AllKeysIn(ChainViews(runs), u)
    requires forall i | 0 <= i < |runs| :: ByteSorted(ChainView(runs[i]))
    ensures TablesApart(tables)
    ensures ByteSorted(Concat(tables)) && FromSources(ChainViews(runs), Concat(tables), MAX_UINT64)
    ensures preserveTombstones ==>
              SameSnapshots(ChainViews(runs), Concat(tables), MinNonCompactable(lastFlushedVersion))
    ensures preserveTombstones ==>
              Complete(ChainViews(runs), CompactionBounds(lastFlushedVersion), Concat(tables))
    ensures LiveComplete(ChainViews(runs), CompactionBounds(lastFlushedVersion), Concat(tables))
    ensures LiveKept(ChainViews(runs), Concat(tables), MinNonCompactable(lastFlushedVersion))
    ensures LiveSame(ChainViews(runs), Concat(tables), MinNonCompactable(lastFlushedVersion))
    ensures !preserveTombstones ==> NoTombstones(Concat(tables))
    ensures !preserveTombstones ==> DeletesDone(ChainViews(runs), Concat(tables), MinNonCompactable(lastFlushedVersion))
    ensures CutToSize(tables, maxTableSize)
  {
    hide FirstsPassed, OthersPast, LiveComplete, LiveKept, LiveSame, NoTombstones, DeletesDone, CutInTime, SizeOf;
    hide MergeInv, Least, NoneBelow, Suffixes, Total, NothingLeft, Finished, Visible, TablesApart, KeysAbove;
    hide SameSnapshots, Complete, FromSources, Concat, ByteSorted;
    var p := CompactionBounds(lastFlushedVersion);
    var sources := ChainViews(runs);
    SourcesSorted(sources, u);
    var mi := new MergingIterator(sources, preserveTombstones, p);
    tables := [];
    StartTables(preserveTombstones, mi.current);
    while true
      invariant mi.Valid() && mi.input == sources && mi.bounds == p && mi.preserveTombstones == preserveTombstones
      invariant Concat(tables) == Visible(mi.done, preserveTombstones)
      invariant TablesApart(tables) && AllInTime(tables, maxTableSize)
      invariant tables == [] || NothingLeft(mi.iters, p)
                || (mi.Positioned() && KeysAbove(tables, mi.current) && AllFull(tables, maxTableSize))
      invariant AllFull(if tables == [] then tables else tables[..|tables| - 1], maxTableSize)
      decreases Total(mi.iters)
    {
      ghost var before, done0 := mi.iters, mi.done;
      var valid := mi.IsValid();
      TotalSuffixes(mi.iters, before);
      VisibleTombstones(done0, mi.done, preserveTombstones);
      if !valid { break; }
      LeastNotNothing(before, mi.iters, p, mi.currIndex);
      if tables == [] { StartTables(preserveTombstones, mi.current); }
      tables := AddTable(mi, tables, maxTableSize);
    }
    MergeMeaning(sources, mi.iters, mi.done, p, preserveTombstones, Concat(tables), u);
  }

  ghost predicate AllInTime(tables: seq<seq<Entry>>, maxSize: nat) {
    forall i | 0 <= i < |tables| :: CutInTime(tables[i], maxSize)
  }

  ghost predicate AllFull(tables: seq<seq<Entry>>, maxSize: nat) {
    forall i | 0 <= i < |tables| :: SizeOf(tables[i]) >= maxSize
  }

  /** One iteration of mergeSSTables' loop: the next output table. */
  method AddTable(mi: MergingIterator, tables: seq<seq<Entry>>, maxTableSize: nat) returns (r: seq<seq<Entry>>)
    requires mi.Positioned() && maxTableSize > 21
    requires Concat(tables) == Visible(mi.done, mi.preserveTombstones)
    requires TablesApart(tables) && KeysAbove(tables, mi.current)
    requires AllInTime(tables, maxTableSize) && AllFull(tables, maxTableSize)
    modifies mi
    ensures mi.Valid() && Total(mi.iters) < Total(old(mi.iters))
    ensures Concat(r) == Visible(mi.done, mi.preserveTombstones)
    ensures TablesApart(r) && AllInTime(r, maxTableSize) && r != [] && r[..|r| - 1] == tables
    ensures NothingLeft(mi.iters, mi.bounds)
            || (mi.Positioned() && KeysAbove(r, mi.current) && AllFull(r, maxTableSize))
  {
    hide FirstsPassed, OthersPast, CutInTime, SizeOf;
    hide MergeInv, Least, NoneBelow, Suffixes, Total, NothingLeft, Finished, Visible, TablesApart, KeysAbove, Concat;
    hide SortedRun;
    var me := new MaxSizeIterator(maxTableSize, mi);
    var table := BuildTable(me, Concat(tables));
    r := tables + [table];
    ConcatPush(tables, table);
    OutputSorted(mi.input, mi.iters, mi.done, mi.bounds, mi.preserveTombstones, Concat(tables), table);
    ApartPush(tables, table);
    if mi.Positioned() && UKey(mi.current) != UKey(table[|table| - 1]) {
      VisibleBeforeCurrent(mi.input, mi.iters, mi.done, mi.bounds, mi.currIndex, mi.preserveTombstones);
      CutBetweenKeys(r, table[|table| - 1], mi.current);
    }
  }

  lemma {:induction false} StartTables(preserve: bool, e: Entry)
    ensures Concat<Entry>([]) == Visible([], preserve) && TablesApart([]) && KeysAbove([], e)
  {
  }

  lemma {:induction false} LeastNotNothing(before: Sources, s: Sources, p: Bounds, i: nat)
    requires Suffixes(s, before) && Least(s, i, p)
    ensures !NothingLeft(before, p)
  {
    SuffixMembers(before, s, i);
    assert InSources(s, s[i][0], i);
  }

  lemma {:induction false} OutputSorted(input: Sources, s: Sources, done: seq<Tagged>, p: Bounds, preserve: bool,
                                        front: seq<Entry>, table: seq<Entry>)
    requires MergeInv(input, s, done, p) && Visible(done, preserve) == front + table
    ensures SortedRun(front + table) && SortedRun(table)
  {
    VisibleSorted(input, done, p, preserve);
    var all := front + table;
    assert forall i | 0 <= i < |table| :: table[i] == all[|front| + i];
  }

  lemma {:induction false} SourcesSorted(s: Sources, u: iset<Bytes>)
    requires PrefixFree(u) && AllKeysIn(s, u) && forall i | 0 <= i < |s| :: ByteSorted(s[i])
    ensures SortedSources(s)
  {
    forall i | 0 <= i < |s| ensures SortedRun(s[i]) { ByteSortedIffSortedRun(s[i], u); }
  }

  lemma {:induction false} MergeMeaning(input: Sources, iters: Sources, done: seq<Tagged>, p: Bounds, preserve: bool,
                                        out: seq<Entry>, u: iset<Bytes>)
    requires MergeInv(input, iters, done, p) && NothingLeft(iters, p) && p.highest == MAX_UINT64
    requires out == Visible(done, preserve) && FirstsPassed(input, iters, done, p)
    requires PrefixFree(u) && AllKeysIn(input, u)
    ensures LiveComplete(input, p, out) && LiveKept(input, out, p.minNonCompactable)
    ensures LiveSame(input, out, p.minNonCompactable)
    ensures !preserve ==> NoTombstones(out) && DeletesDone(input, out, p.minNonCompactable)
    ensures ByteSorted(out) && FromSources(input, out, MAX_UINT64)
    ensures preserve ==> SameSnapshots(input, out, p.minNonCompactable) && Complete(input, p, out)
  {
    hide Visible, UKey, Ver, AllAccounted, Ahead, Suffixes, SortedSources, Complete, SameSnapshots, DoneOk, SortedRun;
    hide ByteSorted, NothingLeft, FirstsPassed, LiveComplete, LiveKept, LiveSame, DeletesDone, NoTombstones;
    LiveMeaning(input, iters, done, p, preserve);
    if !preserve { DroppedMeaning(input, iters, done, p); }
    VisibleSorted(input, done, p, preserve);
    VisibleFromSources(input, done, p, preserve);
    LiveIsSame(input, out, p.minNonCompactable);
    forall k | 0 <= k < |out| ensures UKey(out[k]) in u {
      assert out[k] in out;
      var i :| InSources(input, out[k], i) && Ver(out[k]) <= MAX_UINT64;
      assert KeysIn(input[i], u);
    }
    ByteSortedIffSortedRun(out, u);
    if preserve { SnapshotMeaning(input, iters, done, p); }
  }

  lemma {:induction false} SnapshotMeaning(input: Sources, iters: Sources, done: seq<Tagged>, p: Bounds)
    requires MergeInv(input, iters, done, p) && NothingLeft(iters, p) && p.highest == MAX_UINT64
    ensures SameSnapshots(input, Visible(done, true), p.minNonCompactable)
    ensures Complete(input, p, Visible(done, true))
  {
    hide MergeInv, NothingLeft, IsLatest, Visible, Complete;
    VisibleComplete(input, iters, done, p);
    VisibleAll(done);
    forall v, x | p.minNonCompactable <= v <= MAX_UINT64
      ensures (exists i: nat :: IsLatest(input, v, x, i)) <==> IsLatest([Entries(done)], v, x, 0)
    {
      SnapshotsPreserved(input, iters, done, p, v, x);
    }
  }

  /** A value that nothing compactable replaces is handed out, also when tombstones are not. */
  lemma {:induction false} LiveMeaning(input: Sources, iters: Sources, done: seq<Tagged>, p: Bounds, preserve: bool)
    requires MergeInv(input, iters, done, p) && NothingLeft(iters, p) && p.highest == MAX_UINT64
    ensures LiveComplete(input, p, Visible(done, preserve))
    ensures LiveKept(input, Visible(done, preserve), p.minNonCompactable)
  {
    assert DoneOk(input, done, p);
    hide MergeInv, NothingLeft, Visible, UKey, Ver, DoneOk;
    var out := Visible(done, preserve);
    forall x, i | Unshadowed(input, p, x, i) && !IsTombstone(x) ensures x in out {
      UnshadowedIsChosen(input, iters, done, p, x, i);
      VisibleMembers(done, preserve, x);
    }
    forall v, x | p.minNonCompactable <= v <= MAX_UINT64 && !IsTombstone(x) && exists i: nat :: IsLatest(input, v, x, i)
      ensures IsLatest([out], v, x, 0)
    {
      var i: nat :| IsLatest(input, v, x, i);
      LatestUnshadowed(input, p, v, x, i);
      LatestOfSubset(input, done, p, preserve, v, x, i);
    }
  }

  /** If all values that are read are kept and nothing else comes in, the keys that are not deleted read the same. */
  lemma {:induction false} LiveIsSame(s: Sources, out: seq<Entry>, bound: int)
    requires SortedSources(s) && SortedRun(out) && FromSources(s, out, MAX_UINT64) && LiveKept(s, out, bound)
    ensures LiveSame(s, out, bound)
  {
    hide IsLatest, UKey, Ver, SortedSources, SortedRun, IsTombstone, FromSources;
    forall v, x | bound <= v <= MAX_UINT64 && !DeletedIn(s, v, UKey(x))
      ensures LatestIn(s, v, x) <==> IsLatest([out], v, x, 0)
    {
      if IsLatest([out], v, x, 0) { LatestWasLatest(s, out, bound, v, x); }
    }
  }

  lemma {:induction false} LatestWasLatest(s: Sources, out: seq<Entry>, bound: int, v: int, x: Entry)
    requires SortedSources(s) && SortedRun(out) && FromSources(s, out, MAX_UINT64) && LiveKept(s, out, bound)
    requires bound <= v <= MAX_UINT64 && !DeletedIn(s, v, UKey(x)) && IsLatest([out], v, x, 0)
    ensures LatestIn(s, v, x)
  {
    hide UKey, SortedRun, IsTombstone, AllSeen;
    var i :| InSources(s, x, i) && Ver(x) <= MAX_UINT64;
    assert SortedSources([out]);
    var z, m := LatestOf(s, v, x, i);
    assert LatestIn(s, v, z) && !IsTombstone(z);
    assert IsLatest([out], v, z, 0);
    OneCopyPerSource([out], x, z, 0);
  }

  lemma {:induction false} LatestOf(s: Sources, v: int, x: Entry, i: int) returns (z: Entry, m: nat)
    requires SortedSources(s) && InSources(s, x, i) && Ver(x) <= v <= MAX_UINT64
    ensures IsLatest(s, v, z, m) && UKey(z) == UKey(x)
  {
    hide UKey, Ver, AllSeen, SortedSources;
    VersionInRange(x);
    var p := QueryBounds(v);
    AllSeenOk(s, p);
    z, m := NewestOf(AllSeen(s, p), x, i);
    LatestIsNewest(s, v, z, m);
  }

  lemma {:induction false} VersionInRange(x: Entry)
    ensures 0 <= Ver(x)
  {
  }

  /** Without tombstones, a value that nothing compactable replaced is shown again to those who saw it deleted. */
  lemma {:induction false} ValueReturns(s: Sources, p: Bounds, out: seq<Entry>, v: UInt64, x: Entry, i: int)
    requires LiveComplete(s, p, out) && NoTombstones(out) && SortedSources([out])
    requires Unshadowed(s, p, x, i) && !IsTombstone(x) && Ver(x) <= v
    ensures exists z :: IsLatest([out], v, z, 0) && UKey(z) == UKey(x) && !IsTombstone(z)
  {
    hide UKey, Ver, SortedSources, Unshadowed, IsTombstone;
    assert InSources([out], x, 0);
    var z, j := LatestOf([out], v, x, 0);
  }

  /**
   So a compaction can bring a deleted key back too: a delete at v, not below the last flushed version,
   over a value at w. The tombstone is dropped and the value is kept.
   */
  method CompactShowsDeleted(k: Bytes, v: UInt64, w: UInt64, value: Bytes, maxTableSize: nat, lastFlushedVersion: int)
    returns (tables: seq<seq<Entry>>)
    requires -1 <= lastFlushedVersion < TWO63 && maxTableSize > 21
    requires w < v && MinNonCompactable(lastFlushedVersion) <= v && value != []
    ensures Concat(tables) == [KV(EncodeVersion(k, w), value)]
  {
    var x, y := KV(EncodeVersion(k, v), []), KV(EncodeVersion(k, w), value);
    VersionedParts(k, v, []);
    VersionedParts(k, w, value);
    hide UKey, Ver, EncodeVersion, ByteSorted, FromSources, LiveComplete, NoTombstones, Complete, SameSnapshots;
    hide LiveKept, DeletesDone, CutToSize, TablesApart;
    ghost var u := iset{k};
    var runs := [[[x, y]]];
    OneChain(runs, [x, y]);
    ByteSortedIffSortedRun([x, y], u);
    tables := MergeSSTables(runs, false, maxTableSize, lastFlushedVersion, u);
    OnlyValueLeft(x, y, CompactionBounds(lastFlushedVersion), Concat(tables));
  }

  lemma {:induction false} OneChain(runs: seq<seq<seq<Entry>>>, es: seq<Entry>)
    requires runs == [[es]] && es != []
    ensures ChainViews(runs) == [es]
  {
    var one := runs[0];
    assert one[1..] == [] && ChainView(one) == es;
    assert ChainViews(runs)[0] == ChainView(runs[0]);
  }

  lemma {:induction false} OnlyValueLeft(x: Entry, y: Entry, p: Bounds, out: seq<Entry>)
    requires UKey(x) == UKey(y) && Ver(y) < Ver(x) && p.minNonCompactable <= Ver(x) && p.highest == MAX_UINT64
    requires IsTombstone(x) && !IsTombstone(y)
    requires ByteSorted(out) && FromSources([[x, y]], out, MAX_UINT64)
    requires LiveComplete([[x, y]], p, out) && NoTombstones(out)
    ensures out == [y]
  {
    hide UKey, Ver, IsTombstone, Less, Rank;
    RankOrderAll();
    var s := [[x, y]];
    assert InSources(s, y, 0);
    assert forall e, i | InSources(s, e, i) :: e == x || e == y;
    assert Unshadowed(s, p, y, 0);
    assert forall e | e in out :: e == y;
    assert |out| > 1 ==> out[0] in out && out[1] in out && Less(out[0].key, out[1].key);
    assert |out| == 1 && out[0] in out;
  }

  lemma {:induction false} LatestUnshadowed(s: Sources, p: Bounds, v: int, x: Entry, i: nat)
    requires IsLatest(s, v, x, i) && p.minNonCompactable <= v && p.highest == MAX_UINT64
    ensures Unshadowed(s, p, x, i)
  {
  }

  lemma {:induction false} LatestOfSubset(input: Sources, done: seq<Tagged>, p: Bounds, preserve: bool, v: int,
                                          x: Entry, i: nat)
    requires DoneOk(input, done, p) && IsLatest(input, v, x, i) && x in Visible(done, preserve)
    ensures IsLatest([Visible(done, preserve)], v, x, 0)
  {
    hide Visible, UKey, Ver, DoneOk;
    var out := [Visible(done, preserve)];
    VisibleFromSources(input, done, p, preserve);
    forall y, j | InSources(out, y, j) && UKey(y) == UKey(x) && Ver(y) <= v
      ensures Ver(y) < Ver(x) || (Ver(y) == Ver(x) && 0 <= j)
    {
      var k :| InSources(input, y, k) && Ver(y) <= p.highest;
    }
  }

  /** Without tombstones none is handed out, and a key whose delete holds is not handed out at all. */
  lemma {:induction false} DroppedMeaning(input: Sources, iters: Sources, done: seq<Tagged>, p: Bounds)
    requires MergeInv(input, iters, done, p) && NothingLeft(iters, p) && p.highest == MAX_UINT64
    requires FirstsPassed(input, iters, done, p)
    ensures NoTombstones(Visible(done, false)) && DeletesDone(input, Visible(done, false), p.minNonCompactable)
  {
    hide MergeInv, NothingLeft, Visible, UKey, Ver, FirstsPassed, DeleteHolds;
    forall x | x in Visible(done, false) ensures !IsTombstone(x) { VisibleMembers(done, false, x); }
    forall k, x | DeleteHolds(input, k, p.minNonCompactable) && x in Visible(done, false) ensures UKey(x) != k {
      if UKey(x) == k { DeletedIsGone(input, iters, done, p, x); }
    }
  }

  lemma {:induction false} DeletedIsGone(input: Sources, iters: Sources, done: seq<Tagged>, p: Bounds, x: Entry)
    requires MergeInv(input, iters, done, p) && NothingLeft(iters, p) && p.highest == MAX_UINT64
    requires FirstsPassed(input, iters, done, p) && DeleteHolds(input, UKey(x), p.minNonCompactable)
    ensures x !in Visible(done, false)
  {
    hide NothingLeft, Visible, UKey, Ver, Ahead, AllAccounted, SortedSources, Suffixes, FirstsPassed, DoneOk;
    VisibleMembers(done, false, x);
    var t, i: nat :| Newest(input, t, i) && UKey(t) == UKey(x) && IsTombstone(t) && Ver(t) < p.minNonCompactable;
    UnshadowedIsChosen(input, iters, done, p, t, i);
    var n :| 0 <= n < |done| && done[n] == Tagged(t, i);
    forall j: nat | Tagged(x, j) in done ensures IsTombstone(x) {
      var m :| 0 <= m < |done| && done[m] == Tagged(x, j);
      if m != n { ChosenLater(input, iters, done, p, n, m); }
    }
  }

  /** After the newest version of a key, no first version of it is chosen. */
  lemma {:induction false} ChosenLater(input: Sources, iters: Sources, done: seq<Tagged>, p: Bounds, n: nat, m: nat)
    requires DoneOk(input, done, p) && FirstsPassed(input, iters, done, p) && n < |done| && m < |done| && n != m
    requires Newest(input, done[n].e, done[n].src) && UKey(done[n].e) == UKey(done[m].e)
    requires Ver(done[n].e) < p.minNonCompactable
    ensures InSources(input, done[m].e, done[m].src) && !IsFirst(input, done[m].e, done[m].src)
  {
    hide UKey, Ver, IsFirst;
    RankOrder(UKey(done[n].e), UKey(done[m].e));
    assert m < n ==> Before(done[m].e, done[n].e);
  }
}
