/**
 The merge with tombstones kept, as rounds. Each round hands out its winner. Next then removes the
 other versions of its key, unless an entry that cannot be compacted, a version at or above the bound b,
 was handed out before and no source has since been met at another key: the flag noDropOnNext of
 iteration/merging_iter.go. A query has the largest 64-bit number for its bound.
 */
module KeptRounds {
  import opened Bytes
  import opened KeyEncoding
  import opened MergeSpec
  import opened MergeRounds

  predicate IsTop(e: Entry, b: UInt64) { Ver(e) >= b }

  /** A key with a version at or above the bound has no other version. */
  ghost predicate Uniform(s: Sources, b: UInt64) {
    forall x, i, y, j | InSources(s, x, i) && InSources(s, y, j) && UKey(x) == UKey(y) && IsTop(x, b) ::
      Ver(y) == Ver(x)
  }

  // ----- a round

  /** The sources when the winner has been handed out and its source has moved on. */
  ghost function HandedOut(s: Sources): (r: Sources)
    requires !AllEmpty(s, |s|)
    ensures |r| == |s|
    ensures forall j | 0 <= j < |s| :: r[j] == if j == Winner(s) then s[j][1..] else AfterScan(s, |s|)[j]
  {
    seq(|s|, j requires 0 <= j < |s| => if j == Winner(s) then s[j][1..] else AfterScan(s, |s|)[j])
  }

  predicate StandsElsewhere(r: Sources, k: Bytes, j: nat) { j < |r| && r[j] != [] && UKey(r[j][0]) != k }

  /** No source before j stands at another key. */
  ghost predicate Stuck(r: Sources, k: Bytes, j: nat) { forall i: nat | i < j :: !StandsElsewhere(r, k, i) }

  ghost function NextAt(r: Sources, k: Bytes, flag: bool, j: nat): seq<Entry>
    requires j < |r|
  {
    if flag && Stuck(r, k, j) then r[j] else WithoutKey(r[j], k)
  }

  ghost function NextSources(r: Sources, k: Bytes, flag: bool): (r': Sources)
    ensures |r'| == |r| && forall j | 0 <= j < |r| :: r'[j] == NextAt(r, k, flag, j)
  {
    seq(|r|, j requires 0 <= j < |r| => NextAt(r, k, flag, j))
  }

  ghost function NextFlag(r: Sources, k: Bytes, flag: bool): bool { flag && Stuck(r, k, |r|) }

  /** The sources after a round, and the flag. */
  ghost function AfterFlagged(s: Sources, flag: bool, b: UInt64): (r: Sources)
    requires !AllEmpty(s, |s|)
  {
    if IsTop(Won(s), b) then HandedOut(s) else NextSources(HandedOut(s), UKey(Won(s)), flag)
  }

  ghost function FlagAfter(s: Sources, flag: bool, b: UInt64): bool
    requires !AllEmpty(s, |s|)
  {
    IsTop(Won(s), b) || NextFlag(HandedOut(s), UKey(Won(s)), flag)
  }

  lemma {:induction false} HandedSuffix(s: Sources, j: nat)
    requires !AllEmpty(s, |s|) && j < |s|
    ensures IsSuffix(HandedOut(s)[j], s[j])
    ensures j == Winner(s) ==> |HandedOut(s)[j]| < |s[j]|
  {
    assert s[j][0..] == s[j];
  }

  /** Whatever goes after the handing out, a round makes progress. */
  lemma {:induction false} HandedProgress(s: Sources, r: Sources)
    requires !AllEmpty(s, |s|) && Suffixes(r, HandedOut(s))
    ensures Suffixes(r, s) && Total(r) < Total(s)
  {
    var w := Winner(s);
    hide BestOf, Drops, Winner, HandedOut;
    forall j | 0 <= j < |s| ensures IsSuffix(r[j], s[j]) {
      HandedSuffix(s, j);
      SuffixTrans(r[j], HandedOut(s)[j], s[j]);
    }
    HandedSuffix(s, w);
    TotalSuffixes(r, s);
  }

  lemma {:induction false} FlaggedProgress(s: Sources, flag: bool, b: UInt64)
    requires !AllEmpty(s, |s|)
    ensures Suffixes(AfterFlagged(s, flag, b), s) && Total(AfterFlagged(s, flag, b)) < Total(s)
  {
    hide BestOf, Drops, IsTop, Stuck, WithoutKey, HandedOut;
    var r := HandedOut(s);
    assert forall j | 0 <= j < |r| :: r[j][0..] == r[j];
    HandedProgress(s, AfterFlagged(s, flag, b));
  }

  /** What a merge that keeps tombstones hands out. */
  ghost function KeptOutput(s: Sources, flag: bool, b: UInt64): seq<Entry>
    decreases Total(s)
  {
    if AllEmpty(s, |s|) then []
    else
      FlaggedProgress(s, flag, b);
      [Won(s)] + KeptOutput(AfterFlagged(s, flag, b), FlagAfter(s, flag, b), b)
  }

  // ----- when the key that was handed out is gone

  ghost predicate HasKey(s: Sources, k: Bytes) { exists j: nat | j < |s| :: Versions(s[j], k) != [] }

  /** Handing out takes the first version of the key from every source. */
  lemma {:induction false} HandedVersions(s: Sources, j: nat)
    requires SortedSources(s) && !AllEmpty(s, |s|) && j < |s|
    ensures var (now, next) := (Versions(s[j], UKey(Won(s))), Versions(HandedOut(s)[j], UKey(Won(s))));
            next == if now == [] then [] else now[1..]
  {
    var w, k := Winner(s), UKey(Won(s));
    BestIsLeast(s, |s|, w);
    HeadHasKey(s, k, j);
    if Versions(s[j], k) == [] {
      if s[j] != [] { assert s[j][0] != Won(s); }
    } else if j != w {
      assert Beaten(s, w, j);
    }
  }

  /** No source before the first one that stands at another key still holds the key handed out. */
  ghost predicate Clears(s: Sources)
    requires !AllEmpty(s, |s|)
  {
    var r, k := HandedOut(s), UKey(Won(s));
    forall j: nat | j < |r| && Stuck(r, k, j) :: Versions(r[j], k) == []
  }

  lemma {:induction false} OneTopEach(s: Sources, b: UInt64, j: nat)
    requires SortedSources(s) && Uniform(s, b) && !AllEmpty(s, |s|) && IsTop(Won(s), b) && j < |s|
    ensures |Versions(s[j], UKey(Won(s)))| <= 1
  {
    var k, v := UKey(Won(s)), Versions(s[j], UKey(Won(s)));
    VersionsDescend(s[j], k);
    if |v| > 1 {
      VersionsMembers(s[j], k, v[0]);
      VersionsMembers(s[j], k, v[1]);
      assert InSources(s, Won(s), Winner(s)) && InSources(s, v[0], j) && InSources(s, v[1], j);
    }
  }

  /** The key stays exactly if the flag is up, the winner can be compacted and the sources do not clear. */
  lemma {:induction false} GoneIff(s: Sources, flag: bool, b: UInt64)
    requires SortedSources(s) && Uniform(s, b) && !AllEmpty(s, |s|)
    ensures HasKey(AfterFlagged(s, flag, b), UKey(Won(s))) <==> flag && !IsTop(Won(s), b) && !Clears(s)
  {
    hide Versions, UKey, Ver, Uniform, BestOf, AfterScan, Drops, Less, SortedRun;
    var r, r', k := HandedOut(s), AfterFlagged(s, flag, b), UKey(Won(s));
    forall j: nat | j < |s|
      ensures IsTop(Won(s), b) ==> Versions(r'[j], k) == []
      ensures !IsTop(Won(s), b) ==> Versions(r'[j], k) == if flag && Stuck(r, k, j) then Versions(r[j], k) else []
    {
      if IsTop(Won(s), b) {
        HandedVersions(s, j);
        OneTopEach(s, b, j);
      } else {
        GoneAt(s, j);
      }
    }
  }

  lemma {:induction false} GoneAt(s: Sources, j: nat)
    requires SortedSources(s) && !AllEmpty(s, |s|) && j < |s|
    ensures Versions(WithoutKey(HandedOut(s)[j], UKey(Won(s))), UKey(Won(s))) == []
  {
    hide Versions, WithoutKey, BestOf;
    BestIsLeast(s, |s|, Winner(s));
    HandedSuffix(s, j);
    AllGone(s[j], HandedOut(s)[j], UKey(Won(s)));
  }

  // ----- rounds that remove the key

  /** The sources after a round in which all versions of the key go. */
  ghost function AfterKey(s: Sources): (r: Sources)
    requires !AllEmpty(s, |s|)
    ensures |r| == |s|
    ensures forall j | 0 <= j < |s| :: r[j] == WithoutKey(HandedOut(s)[j], UKey(Won(s)))
  {
    seq(|s|, j requires 0 <= j < |s| => WithoutKey(HandedOut(s)[j], UKey(Won(s))))
  }

  lemma {:induction false} KeyProgress(s: Sources)
    requires !AllEmpty(s, |s|)
    ensures Suffixes(AfterKey(s), s) && Total(AfterKey(s)) < Total(s)
  {
    hide BestOf, Drops, WithoutKey, HandedOut;
    HandedProgress(s, AfterKey(s));
  }

  lemma {:induction false} NothingToRemove(run: seq<Entry>, k: Bytes)
    requires Versions(run, k) == []
    ensures WithoutKey(run, k) == run
  {
  }

  /** If the key is gone, the round has removed it from every source, and the flag says whether it was a top. */
  lemma {:induction false} GoneMeans(s: Sources, flag: bool, b: UInt64)
    requires SortedSources(s) && Uniform(s, b) && !AllEmpty(s, |s|)
    requires !HasKey(AfterFlagged(s, flag, b), UKey(Won(s)))
    ensures AfterFlagged(s, flag, b) == AfterKey(s)
    ensures !AllEmpty(AfterKey(s), |s|) ==> (FlagAfter(s, flag, b) <==> IsTop(Won(s), b))
  {
    hide Versions, UKey, Ver, Uniform, BestOf, AfterScan, Drops, Less, SortedRun, WithoutKey;
    var r, r', k := HandedOut(s), AfterFlagged(s, flag, b), UKey(Won(s));
    forall j: nat | j < |s| ensures r'[j] == AfterKey(s)[j] {
      assert Versions(r'[j], k) == [];
      if r'[j] == r[j] { NothingToRemove(r[j], k); }
    }
    if !IsTop(Won(s), b) && flag && Stuck(r, k, |r|) {
      forall j: nat | j < |s| ensures AfterKey(s)[j] == [] {
        assert Stuck(r, k, j) && !StandsElsewhere(r, k, j);
        assert r'[j] == r[j] && Versions(r[j], k) == [];
        if r[j] != [] { VersionsTail(r[j], k); }
      }
    }
  }

  /** A larger key keeps its newest version. */
  lemma {:induction false} LargerStays(s: Sources, x: Entry, i: nat)
    requires SortedSources(s) && !AllEmpty(s, |s|) && UKey(x) != UKey(Won(s)) && Newest(s, x, i)
    ensures Newest(AfterKey(s), x, i)
  {
    var k, won, w := UKey(x), UKey(Won(s)), Winner(s);
    var rest := HandedOut(s)[i];
    hide Versions, WithoutKey, Drops, UKey, Ver, SortedSources, AllEmpty, Less, BestOf, AfterScan;
    KeyProgress(s);
    VersionsWithout(rest, k, won);
    if s[i] != [] { VersionsTail(s[i], k); }
    NewestStaysIn(s, AfterKey(s), x, i);
  }

  // ----- when the output is exact

  ghost predicate IsNewest(s: Sources, x: Entry) { exists i: nat :: Newest(s, x, i) }

  ghost predicate ExactAt(s: Sources, flag: bool, b: UInt64, x: Entry) {
    x in KeptOutput(s, flag, b) <==> IsNewest(s, x)
  }

  /** Exactly the newest version of every key comes out. */
  ghost predicate KeptExact(s: Sources, flag: bool, b: UInt64) { forall x :: ExactAt(s, flag, b, x) }

  /** In every round with the flag up whose winner can be compacted, the sources clear. */
  ghost predicate FlagHolds(s: Sources, flag: bool, b: UInt64)
    decreases Total(s)
  {
    AllEmpty(s, |s|)
    || (KeyProgress(s);
        && (flag && !IsTop(Won(s), b) ==> Clears(s))
        && FlagHolds(AfterKey(s), IsTop(Won(s), b), b))
  }

  lemma {:induction false} UniformSuffixes(r: Sources, s: Sources, b: UInt64)
    requires Suffixes(r, s) && Uniform(s, b)
    ensures Uniform(r, b)
  {
    hide UKey, Ver;
    forall x, i | InSources(r, x, i) ensures InSources(s, x, i) { SuffixElement(r[i], s[i], x); }
  }

  lemma {:induction false} KeptMembers(s: Sources, flag: bool, b: UInt64, x: Entry)
    requires x in KeptOutput(s, flag, b)
    ensures exists j: nat :: InSources(s, x, j)
    decreases Total(s)
  {
    hide UKey, Ver, HandedOut, NextSources, Drops, Beats;
    FlaggedProgress(s, flag, b);
    if x == Won(s) {
      assert InSources(s, x, Winner(s));
    } else {
      var r := AfterFlagged(s, flag, b);
      KeptMembers(r, FlagAfter(s, flag, b), b, x);
      var j: nat :| InSources(r, x, j);
      SuffixElement(r[j], s[j], x);
      assert InSources(s, x, j);
    }
  }

  lemma {:induction false} KeptUnfold(s: Sources, flag: bool, b: UInt64)
    requires !AllEmpty(s, |s|)
    ensures KeptOutput(s, flag, b) == [Won(s)] + KeptOutput(AfterFlagged(s, flag, b), FlagAfter(s, flag, b), b)
    ensures Won(s) in KeptOutput(s, flag, b)
  {
    hide HandedOut, NextSources, UKey, Ver, BestOf;
    FlaggedProgress(s, flag, b);
  }

  /** The winner is the newest version of its key, and the only newest one. */
  lemma {:induction false} WinnerIsNewest(s: Sources)
    requires SortedSources(s) && !AllEmpty(s, |s|)
    ensures Newest(s, Won(s), Winner(s))
    ensures forall x, i: nat | Newest(s, x, i) && UKey(x) == UKey(Won(s)) :: x == Won(s)
  {
    var k, w := UKey(Won(s)), Winner(s);
    hide UKey, Ver, Less, Versions, RankWinner, SortedRun, SortedSources, Beats, NoneLower;
    BestIsLeast(s, |s|, w);
    VersionsTail(s[w], k);
    var y, j := NewestOf(s, Won(s), w);
    TurnWinner(s, k);
    NewestLeads(s, y, j);
    RankWinnerUnique(s, k, 0, j, w);
    forall x, i: nat | Newest(s, x, i) && UKey(x) == k ensures x == y { NewestUnique(s, x, i, y, j); }
  }

  /** While the key stays, an older version of it comes out. */
  lemma {:induction false} StaysThenTwice(s: Sources, flag: bool, b: UInt64)
    requires SortedSources(s) && !AllEmpty(s, |s|) && HasKey(AfterFlagged(s, flag, b), UKey(Won(s)))
    ensures !KeptExact(s, flag, b)
  {
    var r, k := AfterFlagged(s, flag, b), UKey(Won(s));
    hide UKey, Ver, Less, Versions, RankWinner, SortedRun, BestOf, SortedSources, NoneLower, Newest;
    hide HandedOut, NextSources, FlagAfter, AfterFlagged, KeptOutput, Suffixes, Total;
    FlaggedProgress(s, flag, b);
    SuffixSorted(s, r);
    BestIsLeast(s, |s|, Winner(s));
    TurnStays(s, r, k);
    TurnWinner(r, k);
    KeptUnfold(s, flag, b);
    KeptUnfold(r, FlagAfter(s, flag, b), b);
    WinnerIsNewest(s);
    OlderLeft(s, flag, b, Won(r), Winner(r));
    assert !ExactAt(s, flag, b, Won(r));
  }

  /** What is left of the key is older than the winner. */
  lemma {:induction false} OlderLeft(s: Sources, flag: bool, b: UInt64, y: Entry, j: nat)
    requires SortedSources(s) && !AllEmpty(s, |s|)
    requires InSources(AfterFlagged(s, flag, b), y, j) && UKey(y) == UKey(Won(s))
    ensures y != Won(s)
  {
    var h, k := HandedOut(s), UKey(Won(s));
    hide UKey, Ver, Less, Versions, RankWinner, BestOf, WithoutKey, Newest, Stuck, IsTop;
    FlaggedProgress(s, flag, b);
    HandedVersions(s, j);
    assert y in h[j] by { LeftOfHanded(h, k, flag, y, j); }
    VersionsMembers(h[j], k, y);
    VersionsDescend(s[j], k);
    var now := Versions(s[j], k);
    var m :| 0 <= m < |now[1..]| && now[1..][m] == y;
    VersionsMembers(s[j], k, now[0]);
    WinnerIsNewest(s);
    assert InSources(s, now[0], j);
    assert Ver(y) < Ver(now[0]) <= Ver(Won(s)) by { NewestIsMax(s, now[0], j); }
  }

  lemma {:induction false} NewestIsMax(s: Sources, y: Entry, j: nat)
    requires SortedSources(s) && !AllEmpty(s, |s|) && InSources(s, y, j) && UKey(y) == UKey(Won(s))
    ensures Ver(y) <= Ver(Won(s))
  {
    WinnerIsNewest(s);
  }

  lemma {:induction false} LeftOfHanded(h: Sources, k: Bytes, flag: bool, y: Entry, j: nat)
    requires j < |h| && (y in h[j] || y in NextSources(h, k, flag)[j])
    ensures y in h[j]
  {
    hide WithoutKey, Stuck;
    if y in NextSources(h, k, flag)[j] && NextSources(h, k, flag)[j] != h[j] {
      SuffixElement(WithoutKey(h[j], k), h[j], y);
    }
  }

  /** Whether the newest version of another key is there does not change. */
  lemma {:induction false} NewestBack(s: Sources, x: Entry, i: nat)
    requires SortedSources(s) && !AllEmpty(s, |s|) && Newest(AfterKey(s), x, i)
    ensures UKey(x) != UKey(Won(s)) && exists j: nat :: Newest(s, x, j)
  {
    var r := AfterKey(s);
    hide UKey, Ver, Less, Versions, BestOf, SortedSources, HandedOut, Winner, WithoutKey;
    KeyProgress(s);
    SuffixSorted(s, r);
    SuffixElement(r[i], s[i], x);
    GoneAt(s, i);
    VersionsMembers(r[i], UKey(Won(s)), x);
    var y, j := NewestOf(s, x, i);
    LargerStays(s, y, j);
    NewestUnique(r, x, i, y, j);
  }

  /** A round that removes its key leaves exactness to the rounds that follow. */
  lemma {:induction false} ExactStep(s: Sources, flag: bool, b: UInt64)
    requires SortedSources(s) && Uniform(s, b) && !AllEmpty(s, |s|)
    requires !HasKey(AfterFlagged(s, flag, b), UKey(Won(s)))
    ensures KeptExact(s, flag, b) <==> KeptExact(AfterKey(s), FlagAfter(s, flag, b), b)
  {
    var r, f' := AfterKey(s), FlagAfter(s, flag, b);
    hide ExactAt, AfterKey, FlagAfter;
    forall x ensures ExactAt(s, flag, b, x) <==> ExactAt(r, f', b, x) { ExactAtStep(s, flag, b, x); }
  }

  lemma {:induction false} ExactAtStep(s: Sources, flag: bool, b: UInt64, x: Entry)
    requires SortedSources(s) && Uniform(s, b) && !AllEmpty(s, |s|)
    requires !HasKey(AfterFlagged(s, flag, b), UKey(Won(s)))
    ensures ExactAt(s, flag, b, x) <==> ExactAt(AfterKey(s), FlagAfter(s, flag, b), b, x)
  {
    hide UKey, Ver, SortedSources, Uniform, AfterKey, AfterFlagged, FlagAfter, Winner, KeptOutput, Won, HasKey;
    hide AllEmpty, IsNewest;
    GoneMeans(s, flag, b);
    KeptUnfold(s, flag, b);
    if UKey(x) == UKey(Won(s)) { WinnersKey(s, FlagAfter(s, flag, b), b, x); } else { OtherKey(s, x); }
  }

  lemma {:induction false} WinnersKey(s: Sources, flag: bool, b: UInt64, x: Entry)
    requires SortedSources(s) && !AllEmpty(s, |s|) && UKey(x) == UKey(Won(s))
    ensures x !in KeptOutput(AfterKey(s), flag, b) && !IsNewest(AfterKey(s), x)
    ensures IsNewest(s, x) <==> x == Won(s)
  {
    hide UKey, Ver, Less, BestOf, SortedSources, Newest, HandedOut, Winner, WithoutKey, KeptOutput, Versions;
    var r := AfterKey(s);
    WinnerIsNewest(s);
    forall i: nat ensures !Newest(r, x, i) {
      if Newest(r, x, i) { NewestBack(s, x, i); }
    }
    if x in KeptOutput(r, flag, b) {
      KeptMembers(r, flag, b, x);
      var j: nat :| InSources(r, x, j);
      GoneAt(s, j);
      VersionsMembers(r[j], UKey(x), x);
    }
  }

  lemma {:induction false} OtherKey(s: Sources, x: Entry)
    requires SortedSources(s) && !AllEmpty(s, |s|) && UKey(x) != UKey(Won(s))
    ensures IsNewest(s, x) <==> IsNewest(AfterKey(s), x)
  {
    hide Newest, SortedSources, AllEmpty, AfterKey;
    if i: nat :| Newest(s, x, i) { LargerStays(s, x, i); }
    if i: nat :| Newest(AfterKey(s), x, i) { NewestBack(s, x, i); }
  }

  /** Exactly the newest version of every key comes out if and only if the flag holds nothing back. */
  lemma {:induction false} ExactIffFlagHolds(s: Sources, flag: bool, b: UInt64)
    requires SortedSources(s) && Uniform(s, b)
    ensures KeptExact(s, flag, b) <==> FlagHolds(s, flag, b)
    decreases Total(s)
  {
    hide Newest, SortedSources, Uniform, HandedOut, Clears, Suffixes, BestOf, HasKey;
    if AllEmpty(s, |s|) {
      NoneNewest(s);
    } else {
      var r, top := AfterKey(s), IsTop(Won(s), b);
      KeyProgress(s);
      GoneIff(s, flag, b);
      if HasKey(AfterFlagged(s, flag, b), UKey(Won(s))) {
        StaysThenTwice(s, flag, b);
      } else {
        ExactStep(s, flag, b);
        GoneMeans(s, flag, b);
        SuffixSorted(s, r);
        UniformSuffixes(r, s, b);
        ExactIffFlagHolds(r, FlagAfter(s, flag, b), b);
      }
    }
  }

  lemma {:induction false} NoneNewest(s: Sources)
    requires AllEmpty(s, |s|)
    ensures forall x, i: nat :: !Newest(s, x, i)
  {
  }

  // ----- key by key

  /** What the sources hold when all smaller keys are done with, each removed in its round. */
  ghost function KeptTurn(s: Sources, k: Bytes): Sources
    decreases Total(s)
  {
    if AllEmpty(s, |s|) || !Less(UKey(Won(s)), k) then s
    else
      KeyProgress(s);
      KeptTurn(AfterKey(s), k)
  }

  ghost predicate ClearsAt(s: Sources, k: Bytes) {
    var r := KeptTurn(s, k);
    !AllEmpty(r, |r|) ==> Clears(r)
  }

  /** Some version of k is at or above the bound. */
  ghost predicate HasTop(s: Sources, k: Bytes, b: UInt64) {
    exists x, i :: InSources(s, x, i) && UKey(x) == k && IsTop(x, b)
  }

  /** y is the key before k. */
  ghost predicate KeyBefore(s: Sources, y: Bytes, k: Bytes) {
    HasKey(s, y) && Less(y, k) && forall z | HasKey(s, z) && Less(z, k) :: LessEq(z, y)
  }

  /** k has no version at or above the bound, and comes after a key that has one. */
  ghost predicate AfterTop(s: Sources, k: Bytes, b: UInt64) {
    HasKey(s, k) && !HasTop(s, k, b) && exists y :: KeyBefore(s, y, k) && HasTop(s, y, b)
  }

  /** At the turn of a key that comes after one with a top, the sources clear. */
  ghost predicate FlagsHold(s: Sources, b: UInt64) { forall k :: HoldsAt(s, b, k) }

  ghost predicate HoldsAt(s: Sources, b: UInt64, k: Bytes) { AfterTop(s, k, b) ==> ClearsAt(s, k) }

  lemma {:induction false} KeyMembers(s: Sources, k: Bytes)
    ensures HasKey(s, k) <==> exists x, i :: InSources(s, x, i) && UKey(x) == k
  {
    hide UKey, Versions;
    if j: nat :| j < |s| && Versions(s[j], k) != [] {
      VersionsMembers(s[j], k, Versions(s[j], k)[0]);
      assert InSources(s, Versions(s[j], k)[0], j);
    }
    if x, i :| InSources(s, x, i) && UKey(x) == k { VersionsMembers(s[i], k, x); }
  }

  /** The winner's key is the least. */
  lemma {:induction false} WonLeast(s: Sources, k: Bytes)
    requires SortedSources(s) && !AllEmpty(s, |s|)
    ensures HasKey(s, UKey(Won(s))) && (HasKey(s, k) ==> LessEq(UKey(Won(s)), k))
  {
    var w, won := Winner(s), UKey(Won(s));
    hide UKey, Ver, Less, Versions, RankWinner, SortedRun, Beats, NoneLower;
    assert InSources(s, Won(s), w);
    KeyMembers(s, won);
    if HasKey(s, k) && Less(k, won) {
      BestIsLeast(s, |s|, w);
      LowerStays(s, won, k);
      TurnWinner(s, k);
    }
    Trichotomy(k, won);
  }

  lemma {:induction false} LowerStays(s: Sources, k: Bytes, l: Bytes)
    requires NoneLower(s, |s|, k) && Less(l, k)
    ensures NoneLower(s, |s|, l)
  {
    forall m | 0 <= m < |s| && s[m] != [] ensures !Less(UKey(s[m][0]), l) {
      RankOrder(UKey(s[m][0]), l);
      RankOrder(l, k);
      RankOrder(UKey(s[m][0]), k);
    }
  }

  /** A key has a top if and only if its newest version is one. */
  lemma {:induction false} TopIsNewest(s: Sources, x: Entry, i: nat, b: UInt64)
    requires Newest(s, x, i)
    ensures HasTop(s, UKey(x), b) <==> IsTop(x, b)
  {
    hide UKey, Ver;
    if HasTop(s, UKey(x), b) { var y, j :| InSources(s, y, j) && UKey(y) == UKey(x) && IsTop(y, b); }
  }

  /** The other keys, and whether they have a top, are as before the round. */
  lemma {:induction false} KeysLeft(s: Sources, b: UInt64, k: Bytes)
    requires SortedSources(s) && !AllEmpty(s, |s|)
    ensures HasKey(AfterKey(s), k) <==> HasKey(s, k) && k != UKey(Won(s))
    ensures k != UKey(Won(s)) ==> (HasTop(AfterKey(s), k, b) <==> HasTop(s, k, b))
  {
    var r := AfterKey(s);
    hide UKey, Ver, Less, Versions, BestOf, SortedSources, HandedOut, Winner, WithoutKey, Newest, HasKey, IsTop;
    KeyProgress(s);
    SuffixSorted(s, r);
    KeyMembers(s, k);
    KeyMembers(r, k);
    if x, i :| InSources(r, x, i) && UKey(x) == k {
      var y, j := NewestOf(r, x, i);
      NewestBack(s, y, j);
      var l: nat :| Newest(s, y, l);
      TopIsNewest(s, y, l, b);
      TopIsNewest(r, y, j, b);
      NewestThere(s, y, l);
    } else if x, i :| InSources(s, x, i) && UKey(x) == k && k != UKey(Won(s)) {
      var y, j := NewestOf(s, x, i);
      LargerStays(s, y, j);
      NewestThere(r, y, j);
    }
  }

  lemma {:induction false} NewestThere(s: Sources, x: Entry, i: nat)
    requires Newest(s, x, i)
    ensures InSources(s, x, i)
  {
  }

  lemma {:induction false} NothingBeforeWon(s: Sources, y: Bytes)
    requires SortedSources(s) && !AllEmpty(s, |s|)
    ensures !KeyBefore(s, y, UKey(Won(s)))
  {
    hide UKey, Less, SortedSources, HasKey, Won, AllEmpty;
    WonLeast(s, y);
    RankOrder(y, UKey(Won(s)));
    RankOrder(UKey(Won(s)), y);
  }

  lemma {:induction false} NoneBetween(s: Sources, z: Bytes)
    requires SortedSources(s) && !AllEmpty(s, |s|) && !AllEmpty(AfterKey(s), |s|)
    requires HasKey(s, z) && Less(z, UKey(Won(AfterKey(s))))
    ensures z == UKey(Won(s))
  {
    var r := AfterKey(s);
    var k := UKey(Won(r));
    hide UKey, Less, SortedSources, HasKey, Won, AfterKey, AllEmpty;
    KeyProgress(s);
    SuffixSorted(s, r);
    KeysLeft(s, 0, z);
    WonLeast(r, z);
    RankOrder(z, k);
    RankOrder(k, z);
  }

  lemma {:induction false} SecondKey(s: Sources)
    requires SortedSources(s) && !AllEmpty(s, |s|) && !AllEmpty(AfterKey(s), |s|)
    ensures var k := UKey(Won(AfterKey(s))); HasKey(s, k) && HasKey(AfterKey(s), k) && Less(UKey(Won(s)), k)
  {
    var k := UKey(Won(AfterKey(s)));
    hide UKey, Less, SortedSources, HasKey, Won, AfterKey, AllEmpty;
    KeyProgress(s);
    SuffixSorted(s, AfterKey(s));
    KeysLeft(s, 0, k);
    WonLeast(AfterKey(s), k);
    WonLeast(s, k);
  }

  /** Only the winner's key comes before the least of the others. */
  lemma {:induction false} FirstTwoKeys(s: Sources, y: Bytes)
    requires SortedSources(s) && !AllEmpty(s, |s|) && !AllEmpty(AfterKey(s), |s|)
    ensures KeyBefore(s, y, UKey(Won(AfterKey(s)))) <==> y == UKey(Won(s))
  {
    var won, k := UKey(Won(s)), UKey(Won(AfterKey(s)));
    hide UKey, Less, SortedSources, HasKey, Won, AfterKey, AllEmpty;
    SecondKey(s);
    WonLeast(s, k);
    forall z | HasKey(s, z) && Less(z, k) ensures z == won { NoneBetween(s, z); }
  }

  /** The key that comes next. */
  lemma {:induction false} NextAfterTop(s: Sources, b: UInt64)
    requires SortedSources(s) && !AllEmpty(s, |s|) && !AllEmpty(AfterKey(s), |s|)
    ensures var (r, k) := (AfterKey(s), UKey(Won(AfterKey(s))));
            HoldsAt(r, b, k) && (HoldsAt(s, b, k) <==> (IsTop(Won(s), b) && !IsTop(Won(r), b) ==> Clears(r)))
  {
    var r := AfterKey(s);
    var won, k := UKey(Won(s)), UKey(Won(r));
    hide UKey, Less, SortedSources, HasKey, Won, AfterKey, AllEmpty, HasTop, IsTop, ClearsAt, KeyBefore;
    KeyProgress(s);
    SuffixSorted(s, r);
    SecondKey(s);
    forall y ensures KeyBefore(s, y, k) <==> y == won { FirstTwoKeys(s, y); }
    forall y ensures !KeyBefore(r, y, k) { NothingBeforeWon(r, y); }
    KeysLeft(s, b, k);
    WonTop(s, b);
    WonTop(r, b);
    SecondTurn(s);
  }

  lemma {:induction false} WonTop(s: Sources, b: UInt64)
    requires SortedSources(s) && !AllEmpty(s, |s|)
    ensures HasTop(s, UKey(Won(s)), b) <==> IsTop(Won(s), b)
  {
    hide *;
    WinnerIsNewest(s);
    TopIsNewest(s, Won(s), Winner(s), b);
  }

  lemma {:induction false} SecondTurn(s: Sources)
    requires SortedSources(s) && !AllEmpty(s, |s|) && !AllEmpty(AfterKey(s), |s|)
    ensures ClearsAt(s, UKey(Won(AfterKey(s)))) <==> Clears(AfterKey(s))
  {
    var k := UKey(Won(AfterKey(s)));
    hide UKey, Less, SortedSources, Won, AfterKey, AllEmpty, Clears, HasKey, Total, Suffixes;
    SecondKey(s);
    KeyProgress(s);
    assert !Less(k, k) by { RankOrder(k, k); }
    assert KeptTurn(AfterKey(s), k) == AfterKey(s);
  }

  /** The keys that come later. */
  lemma {:induction false} LaterAfterTop(s: Sources, b: UInt64, k: Bytes)
    requires SortedSources(s) && !AllEmpty(s, |s|)
    requires AllEmpty(AfterKey(s), |s|) || k != UKey(Won(AfterKey(s)))
    ensures HoldsAt(s, b, k) <==> HoldsAt(AfterKey(s), b, k)
  {
    var r, won := AfterKey(s), UKey(Won(s));
    hide UKey, SortedSources, HasKey, Won, AfterKey, AllEmpty, HasTop, ClearsAt, KeyBefore, Less, LessEq;
    KeysLeft(s, b, k);
    if k == won {
      forall y ensures !KeyBefore(s, y, won) { NothingBeforeWon(s, y); }
    } else if HasKey(s, k) {
      forall y
        ensures KeyBefore(s, y, k) <==> KeyBefore(r, y, k)
        ensures KeyBefore(r, y, k) ==> (HasTop(r, y, b) <==> HasTop(s, y, b))
      {
        SameBefore(s, k, y);
        KeysLeft(s, b, y);
      }
      LaterTurn(s, k);
    }
  }

  lemma {:induction false} LaterTurn(s: Sources, k: Bytes)
    requires SortedSources(s) && !AllEmpty(s, |s|) && HasKey(s, k) && k != UKey(Won(s))
    ensures ClearsAt(s, k) <==> ClearsAt(AfterKey(s), k)
  {
    hide UKey, SortedSources, HasKey, Won, AfterKey, AllEmpty, Clears, Less;
    WonLeast(s, k);
    KeyProgress(s);
  }

  /** A key that is not the first of those left has the same key before it as in s. */
  lemma {:induction false} SameBefore(s: Sources, k: Bytes, y: Bytes)
    requires SortedSources(s) && !AllEmpty(s, |s|) && HasKey(s, k) && k != UKey(Won(s))
    requires AllEmpty(AfterKey(s), |s|) || k != UKey(Won(AfterKey(s)))
    ensures KeyBefore(s, y, k) <==> KeyBefore(AfterKey(s), y, k)
    ensures KeyBefore(s, y, k) ==> y != UKey(Won(s))
  {
    var r, won := AfterKey(s), UKey(Won(s));
    hide UKey, SortedSources, Won, AfterKey, AllEmpty, HasKey, Less;
    forall z ensures HasKey(r, z) <==> HasKey(s, z) && z != won { KeysLeft(s, 0, z); }
    if KeyBefore(s, y, k) { NotFirst(s, k, y); }
    if KeyBefore(r, y, k) { WonLeast(s, y); }
  }

  lemma {:induction false} NotFirst(s: Sources, k: Bytes, y: Bytes)
    requires SortedSources(s) && !AllEmpty(s, |s|) && HasKey(AfterKey(s), k) && KeyBefore(s, y, k)
    requires AllEmpty(AfterKey(s), |s|) || k != UKey(Won(AfterKey(s)))
    ensures y != UKey(Won(s))
  {
    var r := AfterKey(s);
    KeyLeftOver(r, k);
    var next := UKey(Won(r));
    hide UKey, SortedSources, Won, AfterKey, AllEmpty, HasKey, Less;
    KeyProgress(s);
    SuffixSorted(s, r);
    WonLeast(r, k);
    SecondKey(s);
    RankOrder(next, y);
    RankOrder(y, next);
    assert LessEq(next, y);
  }

  lemma {:induction false} KeyLeftOver(s: Sources, k: Bytes)
    requires HasKey(s, k)
    ensures !AllEmpty(s, |s|)
  {
  }

  /** Whether flags hold is the question at the next key and for the keys after it. */
  lemma {:induction false} FlagsStep(s: Sources, b: UInt64)
    requires SortedSources(s) && !AllEmpty(s, |s|)
    ensures var r := AfterKey(s);
            FlagsHold(s, b) <==>
            FlagsHold(r, b) && (IsTop(Won(s), b) && !AllEmpty(r, |r|) && !IsTop(Won(r), b) ==> Clears(r))
  {
    var r := AfterKey(s);
    hide UKey, SortedSources, Won, AfterKey, AllEmpty, Clears, IsTop, HoldsAt;
    if AllEmpty(r, |r|) {
      forall k ensures HoldsAt(s, b, k) <==> HoldsAt(r, b, k) { LaterAfterTop(s, b, k); }
    } else {
      var next := UKey(Won(r));
      NextAfterTop(s, b);
      forall k | k != next ensures HoldsAt(s, b, k) <==> HoldsAt(r, b, k) { LaterAfterTop(s, b, k); }
    }
  }

  /** The rounds' condition, key by key. */
  lemma {:induction false} FlagHoldsIff(s: Sources, flag: bool, b: UInt64)
    requires SortedSources(s)
    ensures FlagHolds(s, flag, b) <==>
            FlagsHold(s, b) && (flag && !AllEmpty(s, |s|) && !IsTop(Won(s), b) ==> Clears(s))
    decreases Total(s)
  {
    hide UKey, SortedSources, Won, AfterKey, AllEmpty, FlagsHold, Clears, IsTop;
    if AllEmpty(s, |s|) {
      NoKeys(s, b);
    } else {
      KeyProgress(s);
      SuffixSorted(s, AfterKey(s));
      FlagHoldsIff(AfterKey(s), IsTop(Won(s), b), b);
      FlagsStep(s, b);
    }
  }

  lemma {:induction false} NoKeys(s: Sources, b: UInt64)
    requires AllEmpty(s, |s|)
    ensures FlagsHold(s, b)
  {
    forall k ensures HoldsAt(s, b, k) {}
  }

  /**
   A merge that starts with the flag down hands out exactly the newest version of every key if and only
   if the sources clear at the turn of every key without a top that comes after one with a top.
   */
  lemma {:induction false} KeptExactIff(s: Sources, b: UInt64)
    requires SortedSources(s) && Uniform(s, b)
    ensures KeptExact(s, false, b) <==> FlagsHold(s, b)
  {
    hide KeptExact, FlagsHold, SortedSources, Uniform;
    ExactIffFlagHolds(s, false, b);
    FlagHoldsIff(s, false, b);
  }
}
