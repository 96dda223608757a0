/**
 iteration/merging_iter.go: the k-way merge over versioned sources, used by queries (newest version
 at most `highest`) and by compaction (versions at or above `minNonCompactable` are all kept).
 A source is modelled by the entries it has left; advancing it removes the first one.
 */
module MergingIterators {
  import opened Bytes
  import opened KeptRounds
  import opened KeyEncoding
  import opened MergeRounds
  import opened MergeSpec

  // ----- one scan over the sources

  /** Every version that is seen can be compacted. */
  ghost predicate Compactable(s: Sources, p: Bounds) {
    forall x, i | InSources(s, x, i) && Eligible(x, p) :: Ver(x) < p.minNonCompactable
  }

  /** A key that is seen with a version that cannot be compacted is seen with no other version. */
  ghost predicate Regular(s: Sources, p: Bounds) { Uniform(AllSeen(s, p), p.minNonCompactable) }

  /** Source j has at most been moved past entries that are too new. */
  ghost predicate Unvisited(s0: Sources, s: Sources, p: Bounds, j: int)
    requires 0 <= j < |s0| == |s|
  {
    && IsSuffix(s[j], s0[j])
    && forall x | x in s0[j] && Eligible(x, p) :: x in s[j]
  }

  /** c is what the merge must choose from s: least key, newest version, leftmost source. */
  ghost predicate IsChoice(s: Sources, p: Bounds, c: Entry, i: nat) {
    && InSources(s, c, i) && Eligible(c, p)
    && forall x, j | InSources(s, x, j) && Eligible(x, p) ::
         Before(c, x) || (SameKeyAndVersion(c, x) && i <= j)
  }

  ghost predicate NoneBelow(s: Sources, c: Entry) {
    forall x, j | InSources(s, x, j) :: !Less(UKey(x), UKey(c))
  }

  ghost predicate ScanFrame(s0: Sources, s: Sources, p: Bounds, i: nat) {
    && |s0| == |s| && i <= |s|
    && (forall j | 0 <= j < |s| :: IsSuffix(s[j], s0[j]))
    && (forall j | i <= j < |s| :: Unvisited(s0, s, p, j))
  }

  /** The sources below i have been visited and hold nothing eligible. */
  ghost predicate ScannedNone(s0: Sources, s: Sources, p: Bounds, i: nat) {
    && ScanFrame(s0, s, p, i)
    && forall j | 0 <= j < i :: s[j] == [] && forall x | x in s0[j] :: !Eligible(x, p)
  }

  /** The sources below i have been visited and c, the head of source b, is the best so far. */
  ghost predicate Scanned(s0: Sources, s: Sources, p: Bounds, i: nat, b: nat, c: Entry) {
    && ScanFrame(s0, s, p, i)
    && b < i && s[b] != [] && s[b][0] == c && c in s0[b] && Eligible(c, p)
    && (forall x, j | InSources(s, x, j) && j < i ::
          && !Less(UKey(x), UKey(c))
          && (Eligible(x, p) ==> (j == b && x == c) || Before(c, x)))
    && (forall x, j | InSources(s0, x, j) && j < i && Eligible(x, p) ::
          Before(c, x) || (SameKeyAndVersion(c, x) && b <= j))
  }

  lemma {:induction false} SuffixMembers(s0: Sources, s: Sources, j: nat)
    requires |s0| == |s| && j < |s| && IsSuffix(s[j], s0[j])
    ensures forall x | InSources(s, x, j) :: InSources(s0, x, j)
  {
    forall x | InSources(s, x, j) ensures InSources(s0, x, j) {
      var k :| 0 <= k < |s[j]| && s[j][k] == x;
      var d := |s0[j]| - |s[j]|;
      assert s0[j][d..][k] == s0[j][d + k];
    }
  }

  lemma {:induction false} DropFrame(s0: Sources, s: Sources, p: Bounds, i: nat, k: nat)
    requires ScanFrame(s0, s, p, i) && k < i && s[k] != []
    ensures ScanFrame(s0, DropHead(s, k), p, i)
  {
    DropHeadSuffix(s0, s, k);
    var r := DropHead(s, k);
    assert forall j | i <= j < |s| :: Unvisited(s0, s, p, j) && r[j] == s[j];
  }

  /** Moving source i past a head that is too new changes nothing for the scan. */
  lemma {:induction false} SkipUnvisited(s0: Sources, s: Sources, p: Bounds, i: nat)
    requires ScanFrame(s0, s, p, i) && i < |s| && s[i] != [] && !Eligible(s[i][0], p)
    ensures ScanFrame(s0, DropHead(s, i), p, i)
    ensures Suffixes(DropHead(s, i), s)
  {
    DropHeadSuffix(s0, s, i);
    var r := DropHead(s, i);
    forall x | x in s0[i] && Eligible(x, p) ensures x in r[i] {
      assert Unvisited(s0, s, p, i);
      var k :| 0 <= k < |s[i]| && s[i][k] == x;
      assert r[i][k - 1] == x;
    }
    assert forall j | i <= j < |s| :: Unvisited(s0, s, p, j) && (j != i ==> r[j] == s[j]);
  }

  /** What follows b follows a. */
  lemma {:induction false} FollowsAll(a: Entry, b: Entry)
    requires Before(a, b)
    ensures forall x | Before(b, x) :: Before(a, x)
    ensures forall x: Entry | !Less(UKey(x), UKey(b)) :: !Less(UKey(x), UKey(a))
  {
    RankOrder(UKey(a), UKey(b));
    forall x: Entry
      ensures Before(b, x) ==> Before(a, x)
      ensures !Less(UKey(x), UKey(b)) ==> !Less(UKey(x), UKey(a))
    {
      RankOrder(UKey(b), UKey(x));
      RankOrder(UKey(x), UKey(b));
      RankOrder(UKey(a), UKey(x));
      RankOrder(UKey(x), UKey(a));
    }
  }

  /** The facts about the source about to be visited. */
  lemma {:induction false} HeadFacts(s0: Sources, s: Sources, p: Bounds, i: nat)
    requires SortedSources(s) && ScanFrame(s0, s, p, i) && i < |s| && s[i] != []
    ensures forall x | InSources(s, x, i) :: x == s[i][0] || Before(s[i][0], x)
    ensures forall x | InSources(s, x, i) :: !Less(UKey(x), UKey(s[i][0]))
    ensures forall x | InSources(s0, x, i) && Eligible(x, p) :: x == s[i][0] || Before(s[i][0], x)
    ensures s[i][0] in s0[i]
  {
    RankOrderAll();
    SuffixMembers(s0, s, i);
    assert InSources(s, s[i][0], i);
    forall x | InSources(s, x, i)
      ensures x == s[i][0] || Before(s[i][0], x)
      ensures !Less(UKey(x), UKey(s[i][0]))
    {
      var k :| 0 <= k < |s[i]| && s[i][k] == x;
      assert k > 0 ==> Before(s[i][0], s[i][k]);
    }
    assert Unvisited(s0, s, p, i);
  }

  /** The first non-empty source gives the first choice. */
  lemma {:induction false} TakeFirst(s0: Sources, s: Sources, p: Bounds, i: nat)
    requires SortedSources(s) && i < |s| && s[i] != [] && Eligible(s[i][0], p)
    requires ScannedNone(s0, s, p, i)
    ensures Scanned(s0, s, p, i + 1, i, s[i][0])
  {
    HeadFacts(s0, s, p, i);
    SuffixMembers(s0, s, i);
  }

  /** The head of source i becomes the best entry when its key is smaller or its version newer. */
  lemma {:induction false} TakeHead(s0: Sources, s: Sources, p: Bounds, i: nat, b: nat, c: Entry)
    requires SortedSources(s) && i < |s| && s[i] != [] && Eligible(s[i][0], p)
    requires Scanned(s0, s, p, i, b, c) && Before(s[i][0], c)
    ensures Scanned(s0, s, p, i + 1, i, s[i][0])
  {
    HeadFacts(s0, s, p, i);
    SuffixMembers(s0, s, i);
    FollowsAll(s[i][0], c);
  }

  /** A source other than the best one may move on. */
  lemma {:induction false} DropOther(s0: Sources, s: Sources, p: Bounds, i: nat, b: nat, c: Entry, k: nat)
    requires SortedSources(s) && Scanned(s0, s, p, i, b, c)
    requires k < i && k != b && s[k] != []
    ensures Scanned(s0, DropHead(s, k), p, i, b, c)
  {
    DropFrame(s0, s, p, i, k);
    DropHeadMembers(s, k);
  }

  /** A newer compactable version replaces the choice, whose source moves on. */
  lemma {:induction false} TakeNewerAndDrop(s0: Sources, s: Sources, p: Bounds, i: nat, b: nat, c: Entry)
    requires SortedSources(s) && i < |s| && s[i] != [] && Eligible(s[i][0], p)
    requires Scanned(s0, s, p, i, b, c) && UKey(s[i][0]) == UKey(c) && Ver(c) < Ver(s[i][0])
    ensures Scanned(s0, DropHead(s, b), p, i + 1, i, s[i][0])
  {
    TakeHead(s0, s, p, i, b, c);
    DropOther(s0, s, p, i + 1, i, s[i][0], b);
  }

  /** The choice stands: the head of source i has a larger key or an older version. */
  lemma {:induction false} KeepChoice(s0: Sources, s: Sources, p: Bounds, i: nat, b: nat, c: Entry)
    requires SortedSources(s) && Scanned(s0, s, p, i, b, c)
    requires i < |s| && (s[i] == [] || (Eligible(s[i][0], p) && Before(c, s[i][0])))
    ensures Scanned(s0, s, p, i + 1, b, c)
  {
    if s[i] != [] {
      HeadFacts(s0, s, p, i);
      FollowsAll(c, s[i][0]);
    }
    assert Unvisited(s0, s, p, i);
  }

  /** The choice stands and source i moves past an older or equal version of the same key. */
  lemma {:induction false} KeepChoiceAndDrop(s0: Sources, s: Sources, p: Bounds, i: nat, b: nat, c: Entry)
    requires SortedSources(s) && Scanned(s0, s, p, i, b, c)
    requires i < |s| && s[i] != [] && Eligible(s[i][0], p)
    requires UKey(s[i][0]) == UKey(c) && Ver(s[i][0]) <= Ver(c)
    ensures Scanned(s0, DropHead(s, i), p, i + 1, b, c)
  {
    HeadFacts(s0, s, p, i);
    DropHeadSuffix(s0, s, i);
    DropHeadMembers(s, i);
    var r := DropHead(s, i);
    assert forall j | i <= j < |s| :: Unvisited(s0, s, p, j) && (j != i ==> r[j] == s[j]);
  }

  /** What a visit of source i may use without looking into the scan invariant. */
  lemma {:induction false} VisitFacts(s0: Sources, s: Sources, p: Bounds, i: nat, b: nat, c: Entry)
    requires SortedSources(s) && Scanned(s0, s, p, i, b, c)
    requires i < |s| && s[i] != [] && Eligible(s[i][0], p)
    ensures b < i && s[b] != [] && s[b][0] == c && Eligible(c, p)
    ensures InSources(DropHead(s, i), c, b) && InSources(DropHead(s, b), s[i][0], i)
    ensures Regular(s0, p) && UKey(s[i][0]) == UKey(c)
            && (IsTop(c, p.minNonCompactable) || IsTop(s[i][0], p.minNonCompactable))
            ==> Ver(c) == Ver(s[i][0])
  {
    HeadFacts(s0, s, p, i);
    assert InSources(s0, s[i][0], i) && InSources(s0, c, b);
    SeenMembers(s0[i], p, s[i][0]);
    SeenMembers(s0[b], p, c);
    assert InSources(AllSeen(s0, p), s[i][0], i) && InSources(AllSeen(s0, p), c, b);
  }

  /** When all sources have been visited the choice is the least entry overall. */
  lemma {:induction false} ScanDone(input: Sources, s0: Sources, s: Sources, p: Bounds, b: nat, c: Entry)
    requires Scanned(s0, s, p, |s|, b, c) && OthersPast(s0, s, c, b, |s|, p) && Suffixes(s0, input)
    ensures Least(s, b, p) && NoneBelow(s, c) && IsChoice(s0, p, c, b)
    ensures b < |s| && s[b] != [] && s[b][0] == c && Suffixes(s, s0) && OthersPast(input, s, c, b, |s|, p)
  {
    hide OthersPast;
    PastFromInput(input, s0, s, c, b, |s|, p);
  }

  lemma {:induction false} ScanDoneNone(s0: Sources, s: Sources, p: Bounds)
    requires ScannedNone(s0, s, p, |s|)
    ensures Suffixes(s, s0) && NothingLeft(s0, p)
    ensures forall i | 0 <= i < |s| :: s[i] == []
  {
  }

  lemma {:induction false} StartScan(s: Sources, p: Bounds)
    ensures ScannedNone(s, s, p, 0)
  {
  }

  lemma {:induction false} SkipEmpty(s0: Sources, s: Sources, p: Bounds, i: nat)
    requires ScannedNone(s0, s, p, i) && i < |s| && s[i] == []
    ensures ScannedNone(s0, s, p, i + 1)
  {
    assert Unvisited(s0, s, p, i);
  }

  // ----- the scan as a round over what is seen

  /** s0 has been scanned up to source n, with the head of source b the best if any was found. */
  ghost predicate Follows(s0: Sources, s: Sources, p: Bounds, n: nat, found: bool, b: nat) {
    && |s| == |s0| && n <= |s| && AllSeen(s, p) == AfterScan(AllSeen(s0, p), n)
    && if found then BestOf(AllSeen(s0, p), n, b) else AllEmpty(AllSeen(s0, p), n)
  }

  /** What the scan compares is the first entry seen of each source. */
  lemma {:induction false} FollowsHeads(s0: Sources, s: Sources, p: Bounds, n: nat, found: bool, b: nat)
    requires Follows(s0, s, p, n, found, b) && n < |s| && (s[n] != [] ==> Eligible(s[n][0], p))
    requires found && b < |s| && s[b] != [] ==> Eligible(s[b][0], p)
    ensures s[n] == [] <==> AllSeen(s0, p)[n] == []
    ensures s[n] != [] ==> AllSeen(s0, p)[n][0] == s[n][0]
    ensures found && s[b] != [] ==> AllSeen(s0, p)[b][0] == s[b][0]
  {
    var f := AllSeen(s0, p);
    assert AllSeen(s, p)[n] == f[n];
    if s[n] != [] { SeenDrop(s, p, n); }
    if found {
      BestNotDropped(f, n, b);
      assert AllSeen(s, p)[b] == f[b];
      if s[b] != [] { SeenDrop(s, p, b); }
    }
  }

  lemma {:induction false} FollowSkip(s0: Sources, s: Sources, r: Sources, p: Bounds, n: nat, found: bool, b: nat)
    requires Follows(s0, s, p, n, found, b) && |r| == |s| && AllSeen(r, p) == AllSeen(s, p)
    ensures Follows(s0, r, p, n, found, b)
  {
  }

  lemma {:induction false} FollowEmpty(s0: Sources, s: Sources, p: Bounds, n: nat, found: bool, b: nat)
    requires Follows(s0, s, p, n, found, b) && n < |s| && AllSeen(s0, p)[n] == []
    ensures Follows(s0, s, p, n + 1, found, b)
  {
    VisitEmpty(AllSeen(s0, p), n);
    GrowsByNone(AllSeen(s0, p), n);
  }

  lemma {:induction false} FollowFirst(s0: Sources, s: Sources, p: Bounds, n: nat, b: nat)
    requires Follows(s0, s, p, n, false, b) && n < |s| && AllSeen(s0, p)[n] != []
    ensures Follows(s0, s, p, n + 1, true, n)
  {
    VisitFirst(AllSeen(s0, p), n);
    GrowsByNone(AllSeen(s0, p), n);
  }

  /** Different keys: the smaller one is the best, and nothing moves. */
  lemma {:induction false} FollowOther(s0: Sources, s: Sources, p: Bounds, n: nat, b: nat)
    requires Follows(s0, s, p, n, true, b) && n < |s| && AllSeen(s0, p)[n] != []
    requires UKey(AllSeen(s0, p)[n][0]) != UKey(AllSeen(s0, p)[b][0])
    ensures Follows(s0, s, p, n + 1, true,
                    if Less(UKey(AllSeen(s0, p)[n][0]), UKey(AllSeen(s0, p)[b][0])) then n else b)
  {
    var f := AllSeen(s0, p);
    Trichotomy(UKey(f[n][0]), UKey(f[b][0]));
    if Less(UKey(f[n][0]), UKey(f[b][0])) { VisitLower(f, n, b); } else { VisitHigher(f, n, b); }
    GrowsByNone(f, n);
  }

  lemma {:induction false} FollowNewer(s0: Sources, s: Sources, p: Bounds, n: nat, b: nat)
    requires Follows(s0, s, p, n, true, b) && n < |s| && AllSeen(s0, p)[n] != []
    requires s[b] != [] && Eligible(s[b][0], p)
    requires UKey(AllSeen(s0, p)[n][0]) == UKey(AllSeen(s0, p)[b][0])
    requires Ver(AllSeen(s0, p)[n][0]) > Ver(AllSeen(s0, p)[b][0])
    ensures Follows(s0, DropHead(s, b), p, n + 1, true, n)
  {
    var f := AllSeen(s0, p);
    VisitNewer(f, n, b);
    BestNotDropped(f, n, b);
    GrowsBy(f, n, b);
    SeenDrop(s, p, b);
  }

  lemma {:induction false} FollowOlder(s0: Sources, s: Sources, p: Bounds, n: nat, b: nat)
    requires Follows(s0, s, p, n, true, b) && n < |s| && s[n] != [] && Eligible(s[n][0], p)
    requires AllSeen(s0, p)[n] != [] && UKey(AllSeen(s0, p)[n][0]) == UKey(AllSeen(s0, p)[b][0])
    requires Ver(AllSeen(s0, p)[n][0]) <= Ver(AllSeen(s0, p)[b][0])
    ensures Follows(s0, DropHead(s, n), p, n + 1, true, b)
  {
    var f := AllSeen(s0, p);
    VisitOlder(f, n, b);
    GrowsBy(f, n, n);
    SeenDrop(s, p, n);
  }

  lemma {:induction false} FollowStart(s: Sources, p: Bounds)
    ensures Follows(s, s, p, 0, false, 0)
  {
    ScanOfNone(AllSeen(s, p));
  }

  /** The whole scan is done. */
  lemma {:induction false} FollowDone(s0: Sources, s: Sources, p: Bounds, found: bool, b: nat)
    requires Follows(s0, s, p, |s|, found, b)
    requires found ==> b < |s| && s[b] != [] && Eligible(s[b][0], p)
    ensures AllSeen(s, p) == AfterScan(AllSeen(s0, p), |s|)
    ensures if found then BestOf(AllSeen(s0, p), |s|, b) && AllSeen(s0, p)[b][0] == s[b][0]
            else AllEmpty(AllSeen(s0, p), |s|)
  {
    var f := AllSeen(s0, p);
    if found {
      BestNotDropped(f, |s|, b);
      assert AllSeen(s, p)[b] == f[b];
      SeenDrop(s, p, b);
    }
  }

  /** s is what the scan of a round over f leaves, with the winner at idx. */
  ghost predicate ScanRound(f: Sources, s: Sources, p: Bounds, found: bool, idx: nat) {
    && AllSeen(s, p) == AfterScan(f, |f|)
    && if found then BestOf(f, |f|, idx) && idx < |s| && s[idx] != [] && f[idx][0] == s[idx][0]
       else AllEmpty(f, |f|)
  }

  lemma {:induction false} ScanIsRound(s0: Sources, s: Sources, p: Bounds, found: bool, idx: nat)
    requires Follows(s0, s, p, |s|, found, idx)
    requires found ==> Least(s, idx, p)
    ensures ScanRound(AllSeen(s0, p), s, p, found, idx)
  {
    FollowDone(s0, s, p, found, idx);
  }

  // ----- progress and uniqueness

  lemma {:induction false} DropHeadProgress(s: Sources, i: nat)
    requires i < |s| && s[i] != []
    ensures Suffixes(DropHead(s, i), s) && Total(DropHead(s, i)) < Total(s)
  {
    var r := DropHead(s, i);
    assert forall j | 0 <= j < |s| && j != i :: s[j][0..] == s[j];
    assert |r[i]| < |s[i]|;
    TotalSuffixes(r, s);
  }

  lemma {:induction false} CompactableSuffixes(a: Sources, b: Sources, p: Bounds)
    requires Suffixes(a, b) && Compactable(b, p)
    ensures Compactable(a, p)
  {
    forall x, i | InSources(a, x, i) ensures InSources(b, x, i) { SuffixMembers(b, a, i); }
  }

  lemma {:induction false} RegularSuffixes(a: Sources, b: Sources, p: Bounds)
    requires Suffixes(a, b) && Regular(b, p)
    ensures Regular(a, p)
  {
    forall x, i | InSources(AllSeen(a, p), x, i) ensures InSources(AllSeen(b, p), x, i) {
      SeenMembers(a[i], p, x);
      SuffixElement(a[i], b[i], x);
      SeenMembers(b[i], p, x);
    }
  }

  lemma {:induction false} CompactableIsRegular(s: Sources, p: Bounds)
    requires Compactable(s, p)
    ensures Regular(s, p)
  {
    forall x, i | InSources(AllSeen(s, p), x, i) ensures Ver(x) < p.minNonCompactable {
      SeenMembers(s[i], p, x);
      assert InSources(s, x, i);
    }
  }

  lemma {:induction false} EmptyHasNothing(s: Sources, p: Bounds)
    requires forall i | 0 <= i < |s| :: s[i] == []
    ensures NothingLeft(s, p)
  {
  }

  lemma {:induction false} LeastInRange(s: Sources, i: nat, p: Bounds)
    requires Least(s, i, p)
    ensures i < |s| && s[i] != [] && Eligible(s[i][0], p)
  {
  }

  /** The head of the least source is the choice. */
  lemma {:induction false} LeastIsChoice(s: Sources, p: Bounds, i: nat)
    requires Least(s, i, p)
    ensures IsChoice(s, p, s[i][0], i)
  {
    assert InSources(s, s[i][0], i);
  }

  /** The sources determine the choice. */
  lemma {:induction false} ChoiceUnique(s: Sources, p: Bounds, c: Entry, i: nat, d: Entry, j: nat)
    requires SortedSources(s) && IsChoice(s, p, c, i) && IsChoice(s, p, d, j)
    ensures c == d && i == j
  {
    RankOrder(UKey(c), UKey(d));
    RankOrder(UKey(d), UKey(c));
    assert i == j;
    OneCopyPerSource(s, c, d, i);
  }

  /** Keys already chosen are distinct and do not come again. */
  ghost predicate Finished(s: Sources, done: seq<Tagged>, p: Bounds) {
    && KeysDistinct(done)
    && forall d, x, i | d in done && InSources(s, x, i) && Eligible(x, p) :: Less(UKey(d.e), UKey(x))
  }

  lemma {:induction false} FinishedSuffixes(a: Sources, b: Sources, done: seq<Tagged>, p: Bounds)
    requires Suffixes(a, b) && Finished(b, done, p)
    ensures Finished(a, done, p)
  {
    forall x, i | InSources(a, x, i) ensures InSources(b, x, i) { SuffixMembers(b, a, i); }
  }

  lemma {:induction false} TombstoneStep(input: Sources, s: Sources, done: seq<Tagged>, p: Bounds, i: nat, s0: Sources)
    requires MergeInv(input, s, done, p) && Least(s, i, p) && Suffixes(s, s0)
    ensures MergeInv(input, DropHead(s, i), done + [Tagged(s[i][0], i)], p)
    ensures Suffixes(DropHead(s, i), s0) && Total(DropHead(s, i)) < Total(s)
  {
    SuffixSorted(input, s);
    ChooseKeepsInv(input, s, done, p, i);
    DropHeadProgress(s, i);
    SuffixesTrans(DropHead(s, i), s, s0);
  }

  // ----- Next

  /** The same is seen of a and b but for key k at the front. */
  ghost predicate SameWithout(a: seq<Entry>, b: seq<Entry>, p: Bounds, k: Bytes) {
    WithoutKey(Seen(a, p), k) == WithoutKey(Seen(b, p), k)
  }

  /** What is seen of b is what is seen of a without key k. */
  ghost predicate SeenWithout(a: seq<Entry>, b: seq<Entry>, p: Bounds, k: Bytes) {
    Seen(b, p) == WithoutKey(Seen(a, p), k)
  }

  lemma {:induction false} SameWithoutTail(run: seq<Entry>, p: Bounds, k: Bytes)
    requires run != [] && UKey(run[0]) == k
    ensures SameWithout(run, run[1..], p, k)
  {
    if Eligible(run[0], p) { assert Seen(run, p)[1..] == Seen(run[1..], p); }
    else { assert Seen(run, p) == Seen(run[1..], p); }
  }

  lemma {:induction false} SameWithoutTrans(a: seq<Entry>, b: seq<Entry>, c: seq<Entry>, p: Bounds, k: Bytes)
    requires SameWithout(a, b, p, k) && SameWithout(b, c, p, k)
    ensures SameWithout(a, c, p, k)
  {
  }

  lemma {:induction false} SameWithoutStart(s: Sources, i: nat, p: Bounds, k: Bytes)
    requires i < |s| && s[i] != [] && UKey(s[i][0]) == k
    ensures forall j | 0 <= j < |s| :: SameWithout(s[j], DropHead(s, i)[j], p, k)
  {
    SameWithoutTail(s[i], p, k);
  }

  lemma {:induction false} AllWithout(s: Sources, r: Sources, p: Bounds, k: Bytes)
    requires |r| == |s| && Cleared(r, |r|, k)
    requires forall j | 0 <= j < |r| :: SameWithout(s[j], r[j], p, k)
    ensures forall j | 0 <= j < |r| :: SeenWithout(s[j], r[j], p, k)
  {
    forall j | 0 <= j < |r| ensures SeenWithout(s[j], r[j], p, k) {
      if Seen(r[j], p) != [] {
        var x := Seen(r[j], p)[0];
        SeenMembers(r[j], p, x);
        assert InSources(r, x, j);
      }
      assert SameWithout(s[j], r[j], p, k);
    }
  }

  /** No entry of key k in the sources below i. */
  ghost predicate Cleared(s: Sources, i: nat, k: Bytes) {
    forall x, j | InSources(s, x, j) && j < i :: UKey(x) != k
  }

  lemma {:induction false} ClearedNone(s: Sources, k: Bytes)
    ensures Cleared(s, 0, k)
  {
  }

  lemma {:induction false} ClearedNext(input: Sources, r: Sources, s: Sources, done: seq<Tagged>, p: Bounds, i: nat,
                                       c: Entry)
    requires MergeInv(input, s, done, p) && i < |s| == |r| && NoneBelow(s, c)
    requires Cleared(r, i, UKey(c)) && forall j | 0 <= j < i :: s[j] == r[j]
    requires s[i] != [] ==> UKey(s[i][0]) != UKey(c)
    ensures Cleared(s, i + 1, UKey(c))
  {
    SuffixSorted(input, s);
    forall x, j | InSources(s, x, j) && j < i + 1 ensures UKey(x) != UKey(c) {
      if j == i {
        var k :| 0 <= k < |s[i]| && s[i][k] == x;
        assert InSources(s, s[i][0], i);
        Trichotomy(UKey(s[i][0]), UKey(c));
        RankOrder(UKey(c), UKey(s[i][0]));
        RankOrder(UKey(s[i][0]), UKey(x));
        assert k > 0 ==> Before(s[i][0], s[i][k]);
      } else {
        assert InSources(r, x, j);
      }
    }
  }

  lemma {:induction false} NoneBelowSuffixes(a: Sources, b: Sources, c: Entry)
    requires Suffixes(a, b) && NoneBelow(b, c)
    ensures NoneBelow(a, c)
  {
    forall x, i | InSources(a, x, i) ensures InSources(b, x, i) { SuffixMembers(b, a, i); }
  }

  /** A head with the key of the entry just handed out is redundant, if that entry is compactable. */
  lemma {:induction false} OlderCovered(input: Sources, s: Sources, done: seq<Tagged>, p: Bounds, i: nat, c: Entry,
                                        ci: nat)
    requires MergeInv(input, s, done, p) && Tagged(c, ci) in done && Ver(c) < p.minNonCompactable
    requires i < |s| && s[i] != [] && UKey(s[i][0]) == UKey(c)
    ensures Held(DropHead(s, i), done, c, ci) && Eligible(c, p)
    ensures Eligible(s[i][0], p) ==> Covers(c, ci, s[i][0], i, p)
  {
    assert InSources(s, s[i][0], i);
    RankOrder(UKey(c), UKey(c));
    var k :| 0 <= k < |done| && done[k] == Tagged(c, ci);
  }

  lemma {:induction false} NextFinished(s0: Sources, s: Sources, done: seq<Tagged>, p: Bounds, i: nat)
    requires Finished(s0, done, p) && Least(s0, i, p) && Suffixes(s, s0)
    requires NoneBelow(s, s0[i][0]) && Cleared(s, |s|, UKey(s0[i][0]))
    ensures Finished(s, done + [Tagged(s0[i][0], i)], p)
  {
    var c, done' := s0[i][0], done + [Tagged(s0[i][0], i)];
    FinishedSuffixes(s, s0, done, p);
    assert InSources(s0, c, i);
    RankOrder(UKey(c), UKey(c));
    forall a, b | 0 <= a < b < |done'| ensures UKey(done'[a].e) != UKey(done'[b].e) {
      if b == |done| { assert done[a] in done; }
    }
    forall d, x, j | d in done' && InSources(s, x, j) && Eligible(x, p) ensures Less(UKey(d.e), UKey(x)) {
      if d !in done { Trichotomy(UKey(c), UKey(x)); }
    }
  }

  /** Past the tombstones that win rounds over f nothing is left. */
  ghost predicate NoneToShow(f: Sources) {
    var t := PastTombstones(f);
    AllEmpty(t, |t|)
  }

  /** Past the tombstones that win rounds over f the next winner is c, and the scan of its round leaves s. */
  ghost predicate SettledOn(f: Sources, s: Sources, c: Entry, p: Bounds) {
    var t := PastTombstones(f);
    !AllEmpty(t, |t|) && c == Won(t) && AllSeen(s, p) == AfterScan(t, |t|)
  }

  /**
   What Next leaves of the sources s and of the flag: the source of c has moved on, and with it the sources
   that still stand at c's key, but for those that the flag holds back.
   */
  ghost predicate Moved(s: Sources, flag: bool, c: Entry, i: nat, p: Bounds, s': Sources, flag': bool) {
    && i < |s| && s[i] != []
    && var r := DropHead(s, i);
       if IsTop(c, p.minNonCompactable) then s' == r && flag'
       else s' == NextSources(r, UKey(c), flag) && flag' == NextFlag(r, UKey(c), flag)
  }

  /** Next's loop has come to source i. */
  ghost predicate Moving(r: Sources, k: Bytes, flag: bool, i: nat, s: Sources, flag': bool) {
    && i <= |r| == |s| && (flag' <==> flag && Stuck(r, k, i))
    && (forall j | 0 <= j < i :: s[j] == NextAt(r, k, flag, j))
    && (forall j | i <= j < |r| :: s[j] == r[j])
  }

  lemma {:induction false} MovingNext(r: Sources, k: Bytes, flag: bool, i: nat, s: Sources, f: bool, s': Sources,
                                      f': bool)
    requires Moving(r, k, flag, i, s, f) && i < |s| == |s'|
    requires forall j | 0 <= j < |s| && j != i :: s'[j] == s[j]
    requires s'[i] == if f then s[i] else WithoutKey(s[i], k)
    requires f' == (f && !StandsElsewhere(s', k, i))
    ensures Moving(r, k, flag, i + 1, s', f')
  {
    hide WithoutKey, UKey;
    assert s[i] == r[i];
    assert Stuck(r, k, i + 1) <==> Stuck(r, k, i) && !StandsElsewhere(r, k, i);
    forall j | 0 <= j < i + 1 ensures s'[j] == NextAt(r, k, flag, j) {}
  }

  lemma {:induction false} MovingDone(r: Sources, k: Bytes, flag: bool, s: Sources, f: bool)
    requires Moving(r, k, flag, |r|, s, f)
    ensures s == NextSources(r, k, flag) && f == NextFlag(r, k, flag)
  {
    hide NextAt, Stuck;
  }

  lemma {:induction false} MovingStart(r: Sources, k: Bytes, flag: bool)
    ensures Moving(r, k, flag, 0, r, flag)
  {
  }

  // ----- the first version of a key in each source

  /** x is the newest version of its key in source j. */
  ghost predicate IsFirst(s: Sources, x: Entry, j: int) {
    InSources(s, x, j) && forall y | InSources(s, y, j) && UKey(y) == UKey(x) :: Ver(y) <= Ver(x)
  }

  /** Source j has moved past the newest version of k that it had in s0. */
  ghost predicate PastFirst(s0: Sources, s: Sources, k: Bytes, j: int) {
    forall x | InSources(s, x, j) && UKey(x) == k :: !IsFirst(s0, x, j)
  }

  /** If c can be compacted, all of the first n sources but i have moved past their first version of its key. */
  ghost predicate OthersPast(s0: Sources, s: Sources, c: Entry, i: nat, n: nat, p: Bounds) {
    Ver(c) < p.minNonCompactable ==> forall j | 0 <= j < n && j != i :: PastFirst(s0, s, UKey(c), j)
  }

  /** When an entry that can be compacted has been chosen, no source still holds its first version of the key. */
  ghost predicate FirstsPassed(input: Sources, s: Sources, done: seq<Tagged>, p: Bounds) {
    && (forall n, j | 0 <= n < |done| && 0 <= j < |s| && Ver(done[n].e) < p.minNonCompactable ::
          PastFirst(input, s, UKey(done[n].e), j))
    && (forall n, m | 0 <= n < m < |done| && UKey(done[n].e) == UKey(done[m].e)
          && Ver(done[n].e) < p.minNonCompactable ::
          !IsFirst(input, done[m].e, done[m].src))
  }

  lemma {:induction false} PastSuffixes(s0: Sources, s: Sources, s': Sources, k: Bytes, j: int)
    requires Suffixes(s', s) && PastFirst(s0, s, k, j)
    ensures PastFirst(s0, s', k, j)
  {
    hide UKey, Ver, IsFirst;
    if 0 <= j < |s| { SuffixMembers(s, s', j); }
  }

  lemma {:induction false} OthersSuffixes(s0: Sources, s: Sources, s': Sources, c: Entry, i: nat, n: nat, p: Bounds)
    requires Suffixes(s', s) && OthersPast(s0, s, c, i, n, p)
    ensures OthersPast(s0, s', c, i, n, p)
  {
    hide PastFirst, Ver, UKey;
    if Ver(c) < p.minNonCompactable {
      forall j | 0 <= j < n && j != i ensures PastFirst(s0, s', UKey(c), j) { PastSuffixes(s0, s, s', UKey(c), j); }
    }
  }

  lemma {:induction false} FirstsSuffixes(input: Sources, s: Sources, s': Sources, done: seq<Tagged>, p: Bounds)
    requires Suffixes(s', s) && FirstsPassed(input, s, done, p)
    ensures FirstsPassed(input, s', done, p)
  {
    hide PastFirst, Ver, UKey, IsFirst;
    forall n, j | 0 <= n < |done| && 0 <= j < |s'| && Ver(done[n].e) < p.minNonCompactable
      ensures PastFirst(input, s', UKey(done[n].e), j)
    {
      PastSuffixes(input, s, s', UKey(done[n].e), j);
    }
  }

  /** A source that has moved past the first of what it had has moved past the first of what it was given. */
  lemma {:induction false} PastFromInput(input: Sources, s0: Sources, s: Sources, c: Entry, i: nat, n: nat, p: Bounds)
    requires Suffixes(s0, input) && Suffixes(s, s0) && OthersPast(s0, s, c, i, n, p)
    ensures OthersPast(input, s, c, i, n, p)
  {
    hide UKey, Ver;
    forall j | 0 <= j < n && j != i && Ver(c) < p.minNonCompactable ensures PastFirst(input, s, UKey(c), j) {
      assert PastFirst(s0, s, UKey(c), j);
      forall x | InSources(s, x, j) && UKey(x) == UKey(c) ensures !IsFirst(input, x, j) {
        SuffixMembers(s0, s, j);
        SuffixMembers(input, s0, j);
      }
    }
  }

  /** A source that moves past its head moves past the first version of the head's key. */
  lemma {:induction false} HeadWasFirst(s0: Sources, s: Sources, i: nat)
    requires SortedSources(s) && i < |s| == |s0| && s[i] != [] && s[i][0] in s0[i]
    ensures PastFirst(s0, DropHead(s, i), UKey(s[i][0]), i)
  {
    hide UKey, Ver;
    DropHeadMembers(s, i);
    RankOrder(UKey(s[i][0]), UKey(s[i][0]));
    assert InSources(s0, s[i][0], i);
  }

  lemma {:induction false} PushFirsts(input: Sources, s: Sources, done: seq<Tagged>, p: Bounds, i: nat)
    requires SortedSources(input) && Suffixes(s, input) && i < |s| && s[i] != [] && FirstsPassed(input, s, done, p)
    requires OthersPast(input, s, s[i][0], i, |s|, p)
    ensures FirstsPassed(input, DropHead(s, i), done + [Tagged(s[i][0], i)], p)
  {
    hide UKey, Ver, IsFirst, PastFirst;
    var c, r, done' := s[i][0], DropHead(s, i), done + [Tagged(s[i][0], i)];
    SuffixSorted(input, s);
    DropHeadProgress(s, i);
    assert InSources(s, c, i);
    HeadWasFirst(input, s, i);
    FirstsSuffixes(input, s, r, done, p);
    OthersSuffixes(input, s, r, c, i, |s|, p);
    PastWithChosen(input, r, c, i, p);
    forall n | 0 <= n < |done| && UKey(done[n].e) == UKey(c) && Ver(done[n].e) < p.minNonCompactable
      ensures !IsFirst(input, c, i)
    {
      NotFirst(input, s, c, i);
    }
    FirstsFrom(input, r, done, c, i, p);
  }

  lemma {:induction false} PastWithChosen(input: Sources, r: Sources, c: Entry, i: nat, p: Bounds)
    requires OthersPast(input, r, c, i, |r|, p) && PastFirst(input, r, UKey(c), i)
    ensures Ver(c) < p.minNonCompactable ==> forall j | 0 <= j < |r| :: PastFirst(input, r, UKey(c), j)
  {
    hide PastFirst, UKey, Ver;
  }

  lemma {:induction false} FirstsFrom(input: Sources, r: Sources, done: seq<Tagged>, c: Entry, i: nat, p: Bounds)
    requires FirstsPassed(input, r, done, p)
    requires Ver(c) < p.minNonCompactable ==> forall j | 0 <= j < |r| :: PastFirst(input, r, UKey(c), j)
    requires forall n | 0 <= n < |done| && UKey(done[n].e) == UKey(c) && Ver(done[n].e) < p.minNonCompactable ::
               !IsFirst(input, c, i)
    ensures FirstsPassed(input, r, done + [Tagged(c, i)], p)
  {
    hide PastFirst, UKey, Ver, IsFirst;
  }

  lemma {:induction false} NotFirst(input: Sources, s: Sources, c: Entry, i: nat)
    requires InSources(s, c, i) && PastFirst(input, s, UKey(c), i)
    ensures !IsFirst(input, c, i)
  {
  }

  // ----- and in the scan

  lemma {:induction false} PastNothing(s0: Sources, s: Sources, p: Bounds, i: nat)
    requires ScannedNone(s0, s, p, i) && i < |s| && s[i] != []
    ensures OthersPast(s0, s, s[i][0], i, i + 1, p)
  {
    hide IsFirst;
  }

  /** A smaller key: none of the sources visited holds it. */
  lemma {:induction false} PastLower(s0: Sources, s: Sources, p: Bounds, i: nat, b: nat, c: Entry)
    requires Scanned(s0, s, p, i, b, c) && i < |s| && s[i] != [] && Less(UKey(s[i][0]), UKey(c))
    ensures OthersPast(s0, s, s[i][0], i, i + 1, p)
  {
    hide IsFirst, UKey, Ver;
  }

  lemma {:induction false} NotCompactable(s0: Sources, s: Sources, c: Entry, i: nat, n: nat, p: Bounds)
    requires Ver(c) >= p.minNonCompactable
    ensures OthersPast(s0, s, c, i, n, p)
  {
  }

  /** A larger key, or none: source i does not hold the key of c. */
  lemma {:induction false} PastHigher(s0: Sources, s: Sources, p: Bounds, i: nat, b: nat, c: Entry)
    requires SortedSources(s) && Scanned(s0, s, p, i, b, c) && i < |s| && OthersPast(s0, s, c, b, i, p)
    requires s[i] == [] || Less(UKey(c), UKey(s[i][0]))
    ensures OthersPast(s0, s, c, b, i + 1, p)
  {
    hide IsFirst, UKey, Ver, NoneBelow;
    forall x | InSources(s, x, i) ensures UKey(x) != UKey(c) {
      HeadFacts(s0, s, p, i);
      RankOrder(UKey(c), UKey(s[i][0]));
      RankOrder(UKey(x), UKey(s[i][0]));
      RankOrder(UKey(c), UKey(x));
    }
  }

  lemma {:induction false} PastNewer(s0: Sources, s: Sources, p: Bounds, i: nat, b: nat, c: Entry)
    requires SortedSources(s) && Scanned(s0, s, p, i, b, c) && OthersPast(s0, s, c, b, i, p)
    requires i < |s| && s[i] != [] && UKey(s[i][0]) == UKey(c) && Ver(c) < Ver(s[i][0])
    ensures OthersPast(s0, DropHead(s, b), s[i][0], i, i + 1, p)
  {
    hide IsFirst, UKey, Ver, PastFirst;
    DropHeadProgress(s, b);
    HeadWasFirst(s0, s, b);
    OthersSuffixes(s0, s, DropHead(s, b), c, b, i, p);
  }

  lemma {:induction false} PastOlder(s0: Sources, s: Sources, p: Bounds, i: nat, b: nat, c: Entry)
    requires SortedSources(s) && Scanned(s0, s, p, i, b, c) && OthersPast(s0, s, c, b, i, p)
    requires i < |s| && s[i] != [] && UKey(s[i][0]) == UKey(c)
    ensures OthersPast(s0, DropHead(s, i), c, b, i + 1, p)
  {
    assert ScanFrame(s0, s, p, i) && |s0| == |s|;
    hide IsFirst, UKey, Ver, PastFirst, Scanned, ScanFrame, OthersPast, Suffixes, Total;
    HeadFacts(s0, s, p, i);
    DropHeadProgress(s, i);
    HeadWasFirst(s0, s, i);
    OthersSuffixes(s0, s, DropHead(s, i), c, b, i, p);
    OthersExtend(s0, DropHead(s, i), c, b, i, p);
  }

  lemma {:induction false} OthersExtend(s0: Sources, s: Sources, c: Entry, b: nat, n: nat, p: Bounds)
    requires OthersPast(s0, s, c, b, n, p) && PastFirst(s0, s, UKey(c), n)
    ensures OthersPast(s0, s, c, b, n + 1, p)
  {
    hide PastFirst, UKey, Ver;
  }

  // ----- the iterator

  class MergingIterator {
    const bounds: Bounds
    const preserveTombstones: bool
    /** What each source has left. */
    var iters: Sources
    var current: Entry
    var currIndex: nat
    var noDropOnNext: bool
    /** The sources as they were given, and the entries chosen and moved past so far. */
    ghost const input: Sources
    ghost var done: seq<Tagged>

    ghost predicate Valid()
      reads this
    {
      MergeInv(input, iters, done, bounds) && FirstsPassed(input, iters, done, bounds)
    }

    /** IsValid has returned true: current is the head of its source and precedes the rest. */
    ghost predicate Positioned()
      reads this
    {
      && Valid()
      && Least(iters, currIndex, bounds) && current == iters[currIndex][0]
      && NoneBelow(iters, current) && OthersPast(input, iters, current, currIndex, |iters|, bounds)
      && (preserveTombstones || !IsTombstone(current))
    }

    ghost predicate KeysFinished()
      reads this
    {
      Finished(iters, done, bounds)
    }

    constructor (iters: Sources, preserveTombstones: bool, bounds: Bounds)
      requires SortedSources(iters)
      ensures Valid() && this.iters == input == iters && done == []
      ensures this.preserveTombstones == preserveTombstones && this.bounds == bounds && !noDropOnNext
    {
      this.bounds := bounds;
      this.preserveTombstones := preserveTombstones;
      this.iters := iters;
      this.input := iters;
      this.done := [];
      this.current := KV([0, 0, 0, 0, 0, 0, 0, 0], []);
      this.currIndex := 0;
      this.noDropOnNext := false;
      new;
      InitialInv(iters, bounds);
    }

    /** Moves source i past its head: too new, or covered by (z, l). */
    method Advance(i: nat, ghost z: Entry, ghost l: nat)
      requires Valid() && i < |iters| && iters[i] != []
      requires !Eligible(iters[i][0], bounds)
               || (Held(DropHead(iters, i), done, z, l) && Eligible(z, bounds)
                   && Covers(z, l, iters[i][0], i, bounds))
      modifies this`iters
      ensures Valid() && iters == DropHead(old(iters), i)
    {
      DropKeepsInv(input, iters, done, bounds, i, z, l);
      DropHeadProgress(iters, i);
      FirstsSuffixes(input, iters, DropHead(iters, i), done, bounds);
      iters := iters[i := iters[i][1..]];
    }

    lemma {:induction false} InputSuffixes()
      requires Valid()
      ensures Suffixes(iters, input)
    {
    }

    /** One round of the scan in IsValid: find the entry to choose, dropping what it makes redundant. */
    method Scan() returns (found: bool, idx: nat)
      requires Valid()
      modifies this`iters
      ensures Valid() && Suffixes(iters, old(iters))
      ensures !found ==> forall i | 0 <= i < |iters| :: iters[i] == []
      ensures !found ==> NothingLeft(old(iters), bounds)
      ensures found ==> idx < |iters| && iters[idx] != []
      ensures found ==> Least(iters, idx, bounds) && NoneBelow(iters, iters[idx][0])
      ensures found ==> IsChoice(old(iters), bounds, iters[idx][0], idx)
      ensures found ==> OthersPast(input, iters, iters[idx][0], idx, |iters|, bounds)
      ensures Regular(old(iters), bounds) ==> ScanRound(AllSeen(old(iters), bounds), iters, bounds, found, idx)
    {
      ghost var s0 := iters;
      ghost var whole := Regular(s0, bounds);
      StartScan(s0, bounds);
      FollowStart(s0, bounds);
      hide *;
      InputSuffixes();
      found, idx := false, 0;
      var chosen := current;
      var i := 0;
      while i < |iters|
        invariant i <= |iters| && Valid()
        invariant if found then Scanned(s0, iters, bounds, i, idx, chosen) else ScannedNone(s0, iters, bounds, i)
        invariant found ==> OthersPast(s0, iters, chosen, idx, i, bounds)
        invariant whole ==> Follows(s0, iters, bounds, i, found, idx)
        decreases |iters| - i
      {
        ghost var before := iters;
        SkipTooNew(s0, i, found, idx, chosen);
        if whole { FollowSkip(s0, before, iters, bounds, i, found, idx); }
        if found { OthersSuffixes(s0, before, iters, chosen, idx, i, bounds); }
        found, idx, chosen := Visit(s0, i, found, idx, chosen);
        i := i + 1;
      }
      if found { ScanDone(input, s0, iters, bounds, idx, chosen); } else { ScanDoneNone(s0, iters, bounds); }
      if whole { ScanIsRound(s0, iters, bounds, found, idx); }
    }

    /** The scan's comparison of source i's head with the best entry so far. */
    method Visit(ghost s0: Sources, i: nat, found0: bool, idx0: nat, chosen0: Entry)
      returns (found: bool, idx: nat, chosen: Entry)
      requires Valid() && i < |iters| && (iters[i] == [] || Eligible(iters[i][0], bounds))
      requires if found0 then Scanned(s0, iters, bounds, i, idx0, chosen0) else ScannedNone(s0, iters, bounds, i)
      requires Regular(s0, bounds) ==> Follows(s0, iters, bounds, i, found0, idx0)
      requires found0 ==> OthersPast(s0, iters, chosen0, idx0, i, bounds)
      modifies this`iters
      ensures Valid() && |iters| == old(|iters|)
      ensures if found then Scanned(s0, iters, bounds, i + 1, idx, chosen) else ScannedNone(s0, iters, bounds, i + 1)
      ensures Regular(s0, bounds) ==> Follows(s0, iters, bounds, i + 1, found, idx)
      ensures found ==> OthersPast(s0, iters, chosen, idx, i + 1, bounds)
    {
      hide Scanned, ScannedNone, Follows, Regular, AllSeen, OthersPast, FirstsPassed;
      ghost var whole := Regular(s0, bounds);
      found, idx, chosen := found0, idx0, chosen0;
      SuffixSorted(input, iters);
      if whole { VisitHeads(s0, i, found, idx, chosen); }
      if iters[i] == [] {
        if whole { FollowEmpty(s0, iters, bounds, i, found, idx); }
        if found {
          KeepChoice(s0, iters, bounds, i, idx, chosen);
          PastHigher(s0, iters, bounds, i, idx, chosen);
        } else {
          SkipEmpty(s0, iters, bounds, i);
        }
        return;
      }
      var c := iters[i][0];
      if !found {
        TakeFirst(s0, iters, bounds, i);
        PastNothing(s0, iters, bounds, i);
        if whole { FollowFirst(s0, iters, bounds, i, idx); }
        found, idx, chosen := true, i, c;
        return;
      }
      VisitFacts(s0, iters, bounds, i, idx, chosen);
      if Less(UKey(c), UKey(chosen)) {
        RankOrder(UKey(c), UKey(chosen));
        TakeHead(s0, iters, bounds, i, idx, chosen);
        PastLower(s0, iters, bounds, i, idx, chosen);
        if whole { FollowOther(s0, iters, bounds, i, idx); }
        idx, chosen := i, c;
      } else if UKey(c) == UKey(chosen) {
        if Ver(c) > Ver(chosen) {
          if Ver(c) < bounds.minNonCompactable {
            TakeNewerAndDrop(s0, iters, bounds, i, idx, chosen);
            PastNewer(s0, iters, bounds, i, idx, chosen);
            if whole { FollowNewer(s0, iters, bounds, i, idx); }
            Advance(idx, c, i);
          } else {
            TakeHead(s0, iters, bounds, i, idx, chosen);
            NotCompactable(s0, iters, c, i, i + 1, bounds);
          }
          idx, chosen := i, c;
        } else if Ver(c) < Ver(chosen) {
          if Ver(chosen) < bounds.minNonCompactable {
            KeepChoiceAndDrop(s0, iters, bounds, i, idx, chosen);
            PastOlder(s0, iters, bounds, i, idx, chosen);
            if whole { FollowOlder(s0, iters, bounds, i, idx); }
            Advance(i, chosen, idx);
          } else {
            KeepChoice(s0, iters, bounds, i, idx, chosen);
            NotCompactable(s0, iters, chosen, idx, i + 1, bounds);
          }
        } else {
          KeepChoiceAndDrop(s0, iters, bounds, i, idx, chosen);
          PastOlder(s0, iters, bounds, i, idx, chosen);
          if whole { FollowOlder(s0, iters, bounds, i, idx); }
          Advance(i, chosen, idx);
        }
      } else {
        Trichotomy(UKey(c), UKey(chosen));
        KeepChoice(s0, iters, bounds, i, idx, chosen);
        PastHigher(s0, iters, bounds, i, idx, chosen);
        if whole { FollowOther(s0, iters, bounds, i, idx); }
      }
    }

    lemma {:induction false} VisitHeads(s0: Sources, i: nat, found: bool, idx: nat, chosen: Entry)
      requires i < |iters| && (iters[i] == [] || Eligible(iters[i][0], bounds))
      requires found ==> Scanned(s0, iters, bounds, i, idx, chosen)
      requires Follows(s0, iters, bounds, i, found, idx)
      ensures |s0| == |iters| && (iters[i] == [] <==> AllSeen(s0, bounds)[i] == [])
      ensures iters[i] != [] ==> AllSeen(s0, bounds)[i][0] == iters[i][0]
      ensures found ==> idx < |s0| && AllSeen(s0, bounds)[idx] != [] && AllSeen(s0, bounds)[idx][0] == chosen
    {
      FollowsHeads(s0, iters, bounds, i, found, idx);
    }

    /** The inner loop of the scan: skip entries whose version is too high. */
    method SkipTooNew(ghost s0: Sources, i: nat, ghost found: bool, ghost idx: nat, ghost chosen: Entry)
      requires Valid() && i < |iters|
      requires if found then Scanned(s0, iters, bounds, i, idx, chosen) else ScannedNone(s0, iters, bounds, i)
      modifies this`iters
      ensures Valid()
      ensures |iters| == old(|iters|)
      ensures if found then Scanned(s0, iters, bounds, i, idx, chosen) else ScannedNone(s0, iters, bounds, i)
      ensures iters[i] == [] || Eligible(iters[i][0], bounds)
      ensures AllSeen(iters, bounds) == AllSeen(old(iters), bounds) && Suffixes(iters, old(iters))
    {
      SuffixesRefl(iters);
      while iters[i] != [] && Ver(iters[i][0]) > bounds.highest
        invariant Valid() && |iters| == old(|iters|) && AllSeen(iters, bounds) == AllSeen(old(iters), bounds)
        invariant forall j | 0 <= j < i :: iters[j] == old(iters)[j]
        invariant ScanFrame(s0, iters, bounds, i) && Suffixes(iters, old(iters))
        decreases |iters[i]|
      {
        ghost var before := iters;
        SkipUnvisited(s0, iters, bounds, i);
        SeenSkip(iters, bounds, i);
        Advance(i, iters[i][0], i);
        SuffixesTrans(iters, before, old(iters));
      }
      assert forall x, j | InSources(iters, x, j) && j < i :: InSources(old(iters), x, j);
    }

    /** What IsValid has done since it was called on sources s0 with done0 chosen. */
    ghost predicate Progress(s0: Sources, done0: seq<Tagged>, finished0: bool)
      reads this
    {
      Valid() && Suffixes(iters, s0) && ProgressFrom(iters, done0, finished0)
    }

    ghost predicate ProgressFrom(s: Sources, done0: seq<Tagged>, finished0: bool)
      reads this`done
    {
      && done0 <= done && (forall k | |done0| <= k < |done| :: IsTombstone(done[k].e))
      && (preserveTombstones ==> done == done0)
      && (finished0 && preserveTombstones ==> Finished(s, done, bounds))
    }

    /** IsValid has passed all tombstones that win a round, and settled on the first winner that is none. */
    ghost predicate Settled(f: Sources, valid: bool)
      reads this
    {
      if valid then SettledOn(f, iters, current, bounds) else NoneToShow(f)
    }

    /**
     IsValid: moves to the next entry to hand out, if there is one. Asking again does not move it.
     With tombstones dropped, the ones chosen on the way are passed over, each by one entry.
     */
    method IsValid() returns (valid: bool)
      requires Valid()
      modifies this`iters, this`current, this`currIndex, this`done
      ensures if valid then Positioned() else NothingLeft(iters, bounds)
      ensures Progress(old(iters), old(done), old(KeysFinished()))
      ensures preserveTombstones && valid ==> IsChoice(old(iters), bounds, current, currIndex)
      ensures Regular(old(iters), bounds) ==>
                Regular(iters, bounds)
                && (if preserveTombstones then ScanRound(AllSeen(old(iters), bounds), iters, bounds, valid, currIndex)
                    else Settled(AllSeen(old(iters), bounds), valid))
      ensures old(Positioned()) ==> valid && current == old(current) && currIndex == old(currIndex) && done == old(done)
    {
      ghost var s0, done0, finished0 := iters, done, KeysFinished();
      ghost var positioned0, i0 := Positioned(), currIndex;
      SuffixesRefl(s0);
      ghost var rounds := Regular(s0, bounds);
      ghost var t := PastTombstones(AllSeen(s0, bounds));
      hide Least, MergeInv, Finished, Regular, IsChoice, NoneBelow, Suffixes, Total, NothingLeft;
      hide AllSeen, AllEmpty, BestOf, AfterScan, PastTombstones, ScanRound, OthersPast, FirstsPassed;
      while true
        invariant Progress(s0, done0, finished0)
        invariant rounds ==> PastTombstones(AllSeen(iters, bounds)) == t && Regular(iters, bounds)
        invariant preserveTombstones || positioned0 ==> iters == s0 && done == done0
        decreases Total(iters)
      {
        ghost var f := AllSeen(iters, bounds);
        var found, idx := Round(s0, done0, finished0, positioned0, i0);
        if !found {
          if rounds { SettledNone(f, t, idx); }
          return false;
        }
        var chosen := iters[idx][0];
        if chosen.value == [] && !preserveTombstones {
          PassTombstone(idx, s0, done0, finished0, f, rounds);
        } else {
          current := chosen;
          currIndex := idx;
          if rounds && !preserveTombstones { SettledHere(f, t); }
          return true;
        }
      }
    }

    lemma {:induction false} SettledNone(f: Sources, t: Sources, idx: nat)
      requires ScanRound(f, iters, bounds, false, idx) && PastTombstones(f) == t
      ensures NoneToShow(f) && ScanRound(f, iters, bounds, false, currIndex)
    {
    }

    lemma {:induction false} SettledHere(f: Sources, t: Sources)
      requires ScanRound(f, iters, bounds, true, currIndex) && !IsTombstone(current) && PastTombstones(f) == t
      requires currIndex < |iters| && iters[currIndex] != [] && current == iters[currIndex][0]
      ensures SettledOn(f, iters, current, bounds)
    {
      BestUnique(f, |f|, currIndex, Winner(f));
    }

    /** One round of IsValid's loop up to the tombstone test. */
    method Round(ghost s0: Sources, ghost done0: seq<Tagged>, ghost finished0: bool, ghost positioned0: bool,
                 ghost i0: nat)
      returns (found: bool, idx: nat)
      requires Progress(s0, done0, finished0)
      requires preserveTombstones || positioned0 ==> iters == s0
      requires positioned0 ==> Least(s0, i0, bounds)
      modifies this`iters
      ensures Progress(s0, done0, finished0) && Total(iters) <= Total(old(iters))
      ensures if found then idx < |iters| && iters[idx] != [] && Least(iters, idx, bounds)
                            && NoneBelow(iters, iters[idx][0])
                            && OthersPast(input, iters, iters[idx][0], idx, |iters|, bounds)
              else NothingLeft(iters, bounds)
      ensures Regular(old(iters), bounds) ==>
                ScanRound(AllSeen(old(iters), bounds), iters, bounds, found, idx) && Regular(iters, bounds)
      ensures found && preserveTombstones ==> IsChoice(s0, bounds, iters[idx][0], idx)
      ensures positioned0 ==> found && idx == i0 && s0[i0] != [] && iters[idx][0] == s0[i0][0]
    {
      ghost var before := iters;
      SuffixSorted(input, iters);
      hide *;
      found, idx := Scan();
      TotalSuffixes(iters, before);
      KeepProgress(before, s0, done0, finished0);
      if !found { EmptyHasNothing(iters, bounds); }
      if positioned0 { SameChoice(before, i0, found, idx); }
      if Regular(before, bounds) { RegularSuffixes(iters, before, bounds); }
    }

    /** A scan keeps what IsValid has done so far. */
    lemma {:induction false} KeepProgress(before: Sources, s0: Sources, done0: seq<Tagged>, finished0: bool)
      requires Valid() && Suffixes(iters, before) && Suffixes(before, s0)
      requires ProgressFrom(before, done0, finished0)
      ensures Progress(s0, done0, finished0)
    {
      hide MergeInv, Suffixes, Finished;
      SuffixesTrans(iters, before, s0);
      if Finished(before, done, bounds) { FinishedSuffixes(iters, before, done, bounds); }
    }

    /** The tombstone branch of IsValid: the chosen tombstone's source moves on by one entry. */
    method PassTombstone(idx: nat, ghost s0: Sources, ghost done0: seq<Tagged>, ghost finished0: bool, ghost f: Sources,
                         ghost rounds: bool)
      requires Progress(s0, done0, finished0) && Least(iters, idx, bounds)
      requires OthersPast(input, iters, iters[idx][0], idx, |iters|, bounds)
      requires !preserveTombstones && IsTombstone(iters[idx][0])
      requires rounds ==> ScanRound(f, iters, bounds, true, idx) && Regular(iters, bounds)
      modifies this`iters, this`done
      ensures Progress(s0, done0, finished0) && Total(iters) < Total(old(iters))
      ensures rounds ==> PastTombstones(AllSeen(iters, bounds)) == PastTombstones(f) && Regular(iters, bounds)
    {
      hide MergeInv, Finished, Regular, Suffixes, Total, Least, IsSuffix, PastTombstones, AfterScan, BestOf;
      hide OthersPast, FirstsPassed;
      hide AllSeen;
      LeastInRange(iters, idx, bounds);
      TombstoneStep(input, iters, done, bounds, idx, s0);
      PushChosen(idx);
      if rounds {
        TombstoneRound(f, idx);
        SeenDrop(iters, bounds, idx);
        DropHeadProgress(iters, idx);
        RegularSuffixes(DropHead(iters, idx), iters, bounds);
      }
      done := done + [Tagged(iters[idx][0], idx)];
      iters := iters[idx := iters[idx][1..]];
    }

    lemma {:induction false} PushChosen(i: nat)
      requires Valid() && i < |iters| && iters[i] != [] && OthersPast(input, iters, iters[i][0], i, |iters|, bounds)
      ensures FirstsPassed(input, DropHead(iters, i), done + [Tagged(iters[i][0], i)], bounds)
    {
      PushFirsts(input, iters, done, bounds, i);
    }

    /** A scan of positioned sources finds the same entry again. */
    ghost method SameChoice(before: Sources, i: nat, found: bool, idx: nat)
      requires SortedSources(before) && Least(before, i, bounds)
      requires found ==> idx < |iters| && iters[idx] != [] && IsChoice(before, bounds, iters[idx][0], idx)
      requires !found ==> NothingLeft(before, bounds)
      ensures found && idx == i && iters[idx][0] == before[i][0]
    {
      LeastIsChoice(before, bounds, i);
      if found { ChoiceUnique(before, bounds, before[i][0], i, iters[idx][0], idx); }
    }

    /**
     Next: hands out current and moves past it. If current is compactable, older versions of its key
     at the front of the sources go too, unless a version that cannot be compacted came before.
     */
    method Next()
      requires Positioned()
      modifies this`iters, this`done, this`noDropOnNext
      ensures Valid() && Suffixes(iters, old(iters)) && Total(iters) < Total(old(iters))
      ensures |iters| == old(|iters|)
      ensures done == old(done) + [Tagged(current, currIndex)]
      ensures Moved(old(iters), old(noDropOnNext), current, currIndex, bounds, iters, noDropOnNext)
      ensures !old(noDropOnNext) && Ver(current) < bounds.minNonCompactable
              ==> !noDropOnNext && (old(KeysFinished()) ==> KeysFinished())
                  && forall j | 0 <= j < |iters| :: SeenWithout(old(iters)[j], iters[j], bounds, UKey(current))
    {
      ghost var s0, done0 := iters, done;
      ghost var clean, finished0 := !noDropOnNext, KeysFinished();
      ghost var k, flag := UKey(current), noDropOnNext;
      hide Moving, NextSources, NextFlag, WithoutKey, FirstsPassed, OthersPast;
      hide MergeInv, Finished, Least, NoneBelow, Suffixes, Total, Cleared, SameWithout, SeenWithout;
      LeastInRange(iters, currIndex, bounds);
      SuffixesRefl(s0);
      TombstoneStep(input, s0, done0, bounds, currIndex, s0);
      PushChosen(currIndex);
      done := done + [Tagged(iters[currIndex][0], currIndex)];
      iters := iters[currIndex := iters[currIndex][1..]];
      if Ver(current) >= bounds.minNonCompactable {
        noDropOnNext := true;
        return;
      }
      ghost var s1 := iters;
      SuffixesRefl(s1);
      NoneBelowSuffixes(s1, s0, current);
      ClearedNone(s1, k);
      SameWithoutStart(s0, currIndex, bounds, k);
      MovingStart(s1, k, flag);
      for i := 0 to |iters|
        invariant Valid() && |iters| == |s1| && Suffixes(iters, s1) && NoneBelow(iters, current)
        invariant done == done0 + [Tagged(current, currIndex)]
        invariant clean ==> !noDropOnNext && Cleared(iters, i, k)
        invariant forall j | 0 <= j < |iters| :: SameWithout(s0[j], iters[j], bounds, k)
        invariant Moving(s1, k, flag, i, iters, noDropOnNext)
      {
        ghost var before, flagBefore := iters, noDropOnNext;
        DropOlder(i, s1);
        SameWithoutTrans(s0[i], before[i], iters[i], bounds, k);
        if clean { ClearedNext(input, before, iters, done, bounds, i, current); }
        if iters[i] != [] && UKey(iters[i][0]) != UKey(current) {
          noDropOnNext := false;
        }
        MovingNext(s1, k, flag, i, before, flagBefore, iters, noDropOnNext);
      }
      MovingDone(s1, k, flag, iters, noDropOnNext);
      SuffixesTrans(iters, s1, s0);
      TotalSuffixes(iters, s1);
      if clean {
        AllWithout(s0, iters, bounds, k);
        if finished0 { NextFinished(s0, iters, done0, bounds, currIndex); }
      }
    }

    /** Next's inner loop: source i moves past the older versions of current's key, if that is allowed. */
    method DropOlder(i: nat, ghost s1: Sources)
      requires Valid() && i < |iters| && Suffixes(iters, s1) && NoneBelow(iters, current)
      requires Tagged(current, currIndex) in done && Ver(current) < bounds.minNonCompactable
      modifies this`iters
      ensures Valid() && |iters| == old(|iters|) && Suffixes(iters, s1) && NoneBelow(iters, current)
      ensures forall j | 0 <= j < |iters| && j != i :: iters[j] == old(iters[j])
      ensures !noDropOnNext && iters[i] != [] ==> UKey(iters[i][0]) != UKey(current)
      ensures SameWithout(old(iters)[i], iters[i], bounds, UKey(current))
      ensures iters[i] == if noDropOnNext then old(iters[i]) else WithoutKey(old(iters[i]), UKey(current))
    {
      hide MergeInv, Suffixes, Covers, Held, Seen, FirstsPassed;
      while iters[i] != [] && UKey(iters[i][0]) == UKey(current) && !noDropOnNext
        invariant Valid() && |iters| == old(|iters|) && Suffixes(iters, s1) && NoneBelow(iters, current)
        invariant forall j | 0 <= j < |iters| && j != i :: iters[j] == old(iters[j])
        invariant SameWithout(old(iters)[i], iters[i], bounds, UKey(current))
        invariant if noDropOnNext then iters[i] == old(iters[i])
                  else WithoutKey(iters[i], UKey(current)) == WithoutKey(old(iters[i]), UKey(current))
        decreases |iters[i]|
      {
        ghost var before := iters;
        SameWithoutTail(iters[i], bounds, UKey(current));
        OlderCovered(input, iters, done, bounds, i, current, currIndex);
        Advance(i, current, currIndex);
        DropHeadProgress(before, i);
        SuffixesTrans(iters, before, s1);
        NoneBelowSuffixes(iters, before, current);
      }
    }
  }
}
