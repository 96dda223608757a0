/**
 The merge with tombstones dropped, as rounds over the versions it may see. A round of
 iteration/merging_iter.go looks at the first entry of every source, moves some sources on by one
 entry, and settles on a winner. A winner that is a tombstone is passed over, which moves only its
 own source on by one entry; any other winner is handed out, and then all versions of its key go.
 All versions seen here are compactable.
 */
module MergeRounds {
  import opened Bytes
  import opened MergeSpec

  // ----- what the merge may see of its sources

  function Seen(run: seq<Entry>, p: Bounds): (r: seq<Entry>)
    ensures |r| <= |run|
  {
    if run == [] then [] else (if Eligible(run[0], p) then [run[0]] else []) + Seen(run[1..], p)
  }

  function AllSeen(s: Sources, p: Bounds): (r: Sources)
    ensures |r| == |s| && forall j | 0 <= j < |s| :: r[j] == Seen(s[j], p)
  {
    seq(|s|, j requires 0 <= j < |s| => Seen(s[j], p))
  }

  lemma {:induction false} SeenMembers(run: seq<Entry>, p: Bounds, x: Entry)
    ensures x in Seen(run, p) <==> x in run && Eligible(x, p)
  {
    if run != [] { SeenMembers(run[1..], p, x); }
  }

  lemma {:induction false} SeenSorted(run: seq<Entry>, p: Bounds)
    requires SortedRun(run)
    ensures SortedRun(Seen(run, p))
  {
    if run != [] {
      var rest := Seen(run[1..], p);
      SeenSorted(run[1..], p);
      forall k | 0 <= k < |rest| ensures Before(run[0], rest[k]) {
        SeenMembers(run[1..], p, rest[k]);
        var m :| 0 <= m < |run[1..]| && run[1..][m] == rest[k];
        assert run[m + 1] == rest[k];
      }
    }
  }

  lemma {:induction false} AllSeenOk(s: Sources, p: Bounds)
    requires SortedSources(s)
    ensures SortedSources(AllSeen(s, p))
    ensures forall x, j :: InSources(AllSeen(s, p), x, j) <==> InSources(s, x, j) && Eligible(x, p)
  {
    forall j | 0 <= j < |s| ensures SortedRun(AllSeen(s, p)[j]) { SeenSorted(s[j], p); }
    forall x, j ensures InSources(AllSeen(s, p), x, j) <==> InSources(s, x, j) && Eligible(x, p) {
      if 0 <= j < |s| { SeenMembers(s[j], p, x); }
    }
  }

  /** Moving past a version that is too new changes nothing that is seen. */
  lemma {:induction false} SeenSkip(s: Sources, p: Bounds, i: nat)
    requires i < |s| && s[i] != [] && !Eligible(s[i][0], p)
    ensures AllSeen(DropHead(s, i), p) == AllSeen(s, p)
  {
    assert Seen(s[i], p) == Seen(s[i][1..], p);
  }

  lemma {:induction false} SeenDrop(s: Sources, p: Bounds, i: nat)
    requires i < |s| && s[i] != [] && Eligible(s[i][0], p)
    ensures AllSeen(s, p)[i] != [] && AllSeen(s, p)[i][0] == s[i][0]
    ensures AllSeen(DropHead(s, i), p) == DropHead(AllSeen(s, p), i)
  {
    assert Seen(s[i], p) == [s[i][0]] + Seen(s[i][1..], p);
    assert Seen(s[i], p)[1..] == Seen(s[i][1..], p);
  }

  // ----- one scan

  /** The head of source i is preferred to the head of source j: key, newer version, leftmost. */
  predicate Beats(s: Sources, i: nat, j: nat)
    requires i < |s| && s[i] != [] && j < |s| && s[j] != []
  {
    Before(s[i][0], s[j][0]) || (SameKeyAndVersion(s[i][0], s[j][0]) && i < j)
  }

  /** No source below n has a head whose key is below k. */
  ghost predicate NoneLower(s: Sources, n: nat, k: Bytes) {
    forall m | 0 <= m < n && m < |s| && s[m] != [] :: !Less(UKey(s[m][0]), k)
  }

  function Later(i: nat, j: nat): nat { if i < j then j else i }

  /** The heads of sources i and j meet in the scan, and the one of j goes. */
  ghost predicate Beaten(s: Sources, i: nat, j: nat) {
    && i < |s| && s[i] != [] && j < |s| && s[j] != []
    && UKey(s[i][0]) == UKey(s[j][0]) && Beats(s, i, j)
    && NoneLower(s, Later(i, j) + 1, UKey(s[j][0]))
  }

  /** Source j moves on while the first n sources are visited. */
  ghost predicate Drops(s: Sources, n: nat, j: nat) {
    j < n && exists i | 0 <= i < n :: Beaten(s, i, j)
  }

  ghost function AfterScan(s: Sources, n: nat): (r: Sources)
    ensures |r| == |s|
    ensures forall j | 0 <= j < |s| :: r[j] == if Drops(s, n, j) then s[j][1..] else s[j]
  {
    seq(|s|, j requires 0 <= j < |s| => if Drops(s, n, j) then s[j][1..] else s[j])
  }

  /** The head of source b is the best of the first n sources. */
  ghost predicate BestOf(s: Sources, n: nat, b: nat) {
    && b < n <= |s| && s[b] != []
    && forall j | 0 <= j < n && j != b && s[j] != [] :: Beats(s, b, j)
  }

  ghost predicate AllEmpty(s: Sources, n: nat) {
    forall j | 0 <= j < n && j < |s| :: s[j] == []
  }

  lemma {:induction false} BeatsTrans(s: Sources, i: nat, j: nat, k: nat)
    requires i < |s| && s[i] != [] && j < |s| && s[j] != [] && k < |s| && s[k] != []
    requires Beats(s, i, j) && Beats(s, j, k)
    ensures Beats(s, i, k) && !Less(UKey(s[k][0]), UKey(s[i][0]))
  {
    RankOrder(UKey(s[i][0]), UKey(s[j][0]));
    RankOrder(UKey(s[j][0]), UKey(s[k][0]));
    RankOrder(UKey(s[i][0]), UKey(s[k][0]));
    RankOrder(UKey(s[k][0]), UKey(s[i][0]));
  }

  lemma {:induction false} BeatsTotal(s: Sources, i: nat, j: nat)
    requires i < |s| && s[i] != [] && j < |s| && s[j] != [] && i != j
    ensures Beats(s, i, j) <==> !Beats(s, j, i)
    ensures Beats(s, i, j) ==> !Less(UKey(s[j][0]), UKey(s[i][0]))
  {
    RankOrder(UKey(s[i][0]), UKey(s[j][0]));
    RankOrder(UKey(s[j][0]), UKey(s[i][0]));
    Trichotomy(UKey(s[i][0]), UKey(s[j][0]));
  }

  lemma {:induction false} BestExists(s: Sources, n: nat) returns (b: nat)
    requires n <= |s| && !AllEmpty(s, n)
    ensures BestOf(s, n, b)
  {
    var i := n - 1;
    if AllEmpty(s, i) {
      b := i;
    } else {
      var c := BestExists(s, i);
      if s[i] == [] || Beats(s, c, i) {
        b := c;
      } else {
        b := i;
        BeatsTotal(s, c, i);
        forall j | 0 <= j < n && j != b && s[j] != [] ensures Beats(s, b, j) {
          if j != c { BeatsTrans(s, i, c, j); }
        }
      }
    }
  }

  lemma {:induction false} BestUnique(s: Sources, n: nat, b: nat, c: nat)
    requires BestOf(s, n, b) && BestOf(s, n, c)
    ensures b == c
  {
    if b != c { BeatsTotal(s, b, c); }
  }

  /** No head lies below the best one. */
  lemma {:induction false} BestIsLeast(s: Sources, n: nat, b: nat)
    requires BestOf(s, n, b)
    ensures NoneLower(s, n, UKey(s[b][0]))
  {
    forall m | 0 <= m < n && m < |s| && s[m] != [] ensures !Less(UKey(s[m][0]), UKey(s[b][0])) {
      if m == b { RankOrder(UKey(s[b][0]), UKey(s[b][0])); } else { BeatsTotal(s, b, m); }
    }
  }

  // ----- how visiting one more source changes the scan

  /** Visiting source n: those that moved on before, and perhaps source d. */
  ghost predicate Grows(s: Sources, n: nat, d: int) {
    forall j: nat | j < |s| :: Drops(s, n + 1, j) <==> Drops(s, n, j) || j == d
  }

  lemma {:induction false} DropsMonotone(s: Sources, n: nat, j: nat)
    requires Drops(s, n, j)
    ensures Drops(s, n + 1, j)
  {
    var i :| 0 <= i < n && Beaten(s, i, j);
    assert 0 <= i < n + 1 && Beaten(s, i, j);
  }

  /** What a new drop is due to. */
  lemma {:induction false} NewDrop(s: Sources, n: nat, j: nat) returns (i: nat)
    requires Drops(s, n + 1, j) && !Drops(s, n, j)
    ensures i <= n && Beaten(s, i, j) && (i == n || j == n)
  {
    i :| 0 <= i < n + 1 && Beaten(s, i, j);
  }

  lemma {:induction false} VisitEmpty(s: Sources, n: nat)
    requires n < |s| && s[n] == []
    ensures Grows(s, n, -1)
    ensures forall b: nat | BestOf(s, n, b) :: BestOf(s, n + 1, b)
  {
    forall j: nat | j < |s| ensures Drops(s, n + 1, j) <==> Drops(s, n, j) {
      if Drops(s, n, j) { DropsMonotone(s, n, j); }
      if Drops(s, n + 1, j) && !Drops(s, n, j) { var i := NewDrop(s, n, j); }
    }
  }

  lemma {:induction false} VisitFirst(s: Sources, n: nat)
    requires n < |s| && s[n] != [] && AllEmpty(s, n)
    ensures Grows(s, n, -1) && BestOf(s, n + 1, n)
  {
    RankOrder(UKey(s[n][0]), UKey(s[n][0]));
    forall j: nat | j < |s| ensures Drops(s, n + 1, j) <==> Drops(s, n, j) {
      if Drops(s, n, j) { DropsMonotone(s, n, j); }
      if Drops(s, n + 1, j) && !Drops(s, n, j) { var i := NewDrop(s, n, j); }
    }
  }

  lemma {:induction false} VisitLower(s: Sources, n: nat, b: nat)
    requires n < |s| && s[n] != [] && BestOf(s, n, b) && Less(UKey(s[n][0]), UKey(s[b][0]))
    ensures Grows(s, n, -1) && BestOf(s, n + 1, n)
  {
    BestIsLeast(s, n, b);
    NewBest(s, n, b);
    RankOrder(UKey(s[n][0]), UKey(s[b][0]));
    forall j: nat | j < |s| ensures Drops(s, n + 1, j) <==> Drops(s, n, j) {
      if Drops(s, n, j) { DropsMonotone(s, n, j); }
      if Drops(s, n + 1, j) && !Drops(s, n, j) { var i := NewDrop(s, n, j); }
    }
  }

  lemma {:induction false} VisitHigher(s: Sources, n: nat, b: nat)
    requires n < |s| && s[n] != [] && BestOf(s, n, b) && Less(UKey(s[b][0]), UKey(s[n][0]))
    ensures Grows(s, n, -1) && BestOf(s, n + 1, b)
  {
    forall j: nat | j < |s| ensures Drops(s, n + 1, j) <==> Drops(s, n, j) {
      if Drops(s, n, j) { DropsMonotone(s, n, j); }
      if Drops(s, n + 1, j) && !Drops(s, n, j) { var i := NewDrop(s, n, j); }
    }
  }

  /** The head of source n beats the best so far, and so all. */
  lemma {:induction false} NewBest(s: Sources, n: nat, b: nat)
    requires n < |s| && s[n] != [] && BestOf(s, n, b) && Before(s[n][0], s[b][0])
    ensures BestOf(s, n + 1, n)
  {
    forall j | 0 <= j < n + 1 && j != n && s[j] != [] ensures Beats(s, n, j) {
      if j != b { BeatsTrans(s, n, b, j); }
    }
  }

  lemma {:induction false} VisitNewer(s: Sources, n: nat, b: nat)
    requires n < |s| && s[n] != [] && BestOf(s, n, b)
    requires UKey(s[n][0]) == UKey(s[b][0]) && Ver(s[n][0]) > Ver(s[b][0])
    ensures Grows(s, n, b) && BestOf(s, n + 1, n)
  {
    BestIsLeast(s, n, b);
    RankOrder(UKey(s[n][0]), UKey(s[b][0]));
    NewBest(s, n, b);
    BestIsLeast(s, n + 1, n);
    assert Beaten(s, n, b);
    forall j: nat | j < |s| ensures Drops(s, n + 1, j) <==> Drops(s, n, j) || j == b {
      if Drops(s, n, j) { DropsMonotone(s, n, j); }
      if Drops(s, n + 1, j) && !Drops(s, n, j) && j != b {
        var i := NewDrop(s, n, j);
        if j == n { BeatsTotal(s, i, n); } else { assert Beaten(s, b, j); }
      }
    }
  }

  lemma {:induction false} VisitOlder(s: Sources, n: nat, b: nat)
    requires n < |s| && s[n] != [] && BestOf(s, n, b)
    requires UKey(s[n][0]) == UKey(s[b][0]) && Ver(s[n][0]) <= Ver(s[b][0])
    ensures Grows(s, n, n) && BestOf(s, n + 1, b)
  {
    BestIsLeast(s, n, b);
    RankOrder(UKey(s[n][0]), UKey(s[b][0]));
    BestIsLeast(s, n + 1, b);
    assert Beaten(s, b, n);
    forall j: nat | j < |s| ensures Drops(s, n + 1, j) <==> Drops(s, n, j) || j == n {
      if Drops(s, n, j) { DropsMonotone(s, n, j); }
      if Drops(s, n + 1, j) && !Drops(s, n, j) && j != n {
        var i := NewDrop(s, n, j);
        if j == b { BeatsTotal(s, b, n); } else { assert Beaten(s, b, j); }
      }
    }
  }

  /** Source d moves on by one entry in the scan. */
  lemma {:induction false} GrowsBy(s: Sources, n: nat, d: nat)
    requires d < |s| && s[d] != [] && Grows(s, n, d) && !Drops(s, n, d)
    ensures AfterScan(s, n)[d] == s[d] && AfterScan(s, n + 1) == DropHead(AfterScan(s, n), d)
  {
    hide Drops;
  }

  lemma {:induction false} GrowsByNone(s: Sources, n: nat)
    requires Grows(s, n, -1)
    ensures AfterScan(s, n + 1) == AfterScan(s, n)
  {
    hide Drops;
  }

  lemma {:induction false} BestNotDropped(s: Sources, n: nat, b: nat)
    requires BestOf(s, n, b)
    ensures !Drops(s, n, b)
  {
    forall i | 0 <= i < n ensures !Beaten(s, i, b) {
      if i < |s| && s[i] != [] {
        if i == b { RankOrder(UKey(s[b][0]), UKey(s[b][0])); } else { BeatsTotal(s, i, b); }
      }
    }
  }

  lemma {:induction false} ScanOfNone(s: Sources)
    ensures AfterScan(s, 0) == s
  {
  }

  // ----- rounds

  lemma {:induction false} HasBest(s: Sources)
    requires !AllEmpty(s, |s|)
    ensures exists b: nat :: BestOf(s, |s|, b)
  {
    var _ := BestExists(s, |s|);
  }

  ghost function Winner(s: Sources): (b: nat)
    requires !AllEmpty(s, |s|)
    ensures BestOf(s, |s|, b)
  {
    HasBest(s);
    var b: nat :| BestOf(s, |s|, b);
    b
  }

  ghost function Won(s: Sources): Entry
    requires !AllEmpty(s, |s|)
  {
    s[Winner(s)][0]
  }

  function WithoutKey(run: seq<Entry>, k: Bytes): (r: seq<Entry>)
    ensures IsSuffix(r, run)
  {
    if run != [] && UKey(run[0]) == k then WithoutKey(run[1..], k) else run
  }

  /** The sources after a round: past the tombstone, or without the key handed out. */
  ghost function AfterRound(s: Sources): (r: Sources)
    requires !AllEmpty(s, |s|)
    ensures |r| == |s|
    ensures forall j | 0 <= j < |s| :: r[j] == AfterRoundAt(s, j)
  {
    seq(|s|, j requires 0 <= j < |s| => AfterRoundAt(s, j))
  }

  ghost function AfterRoundAt(s: Sources, j: nat): seq<Entry>
    requires !AllEmpty(s, |s|) && j < |s|
  {
    var rest := AfterScan(s, |s|)[j];
    if !IsTombstone(Won(s)) then WithoutKey(rest, UKey(Won(s)))
    else if j == Winner(s) then s[j][1..]
    else rest
  }

  lemma {:induction false} RoundProgress(s: Sources)
    requires !AllEmpty(s, |s|)
    ensures Suffixes(AfterRound(s), s) && Total(AfterRound(s)) < Total(s)
  {
    var r, w := AfterRound(s), Winner(s);
    forall j | 0 <= j < |s| ensures IsSuffix(r[j], s[j]) { RoundAtSuffix(s, j); }
    RoundAtSuffix(s, w);
    TotalSuffixes(r, s);
  }

  lemma {:induction false} RoundAtSuffix(s: Sources, j: nat)
    requires !AllEmpty(s, |s|) && j < |s|
    ensures IsSuffix(AfterRoundAt(s, j), s[j])
    ensures j == Winner(s) ==> |AfterRoundAt(s, j)| < |s[j]|
  {
    var rest, k := AfterScan(s, |s|)[j], UKey(Won(s));
    var a := WithoutKey(rest, k);
    assert s[j][0..] == s[j];
    assert IsSuffix(rest, s[j]);
    SuffixTrans(a, rest, s[j]);
  }

  lemma {:induction false} SuffixTrans<T>(a: seq<T>, b: seq<T>, c: seq<T>)
    requires IsSuffix(a, b) && IsSuffix(b, c)
    ensures IsSuffix(a, c)
  {
    var d, e := |c| - |b|, |b| - |a|;
    assert c[d + e..] == c[d..][e..];
  }

  /** What a merge that drops tombstones hands out. */
  ghost function Output(s: Sources): seq<Entry>
    decreases Total(s)
  {
    if AllEmpty(s, |s|) then []
    else
      RoundProgress(s);
      (if IsTombstone(Won(s)) then [] else [Won(s)]) + Output(AfterRound(s))
  }

  /** The sources when the next entry is handed out, before that round. */
  ghost function PastTombstones(s: Sources): (r: Sources)
    ensures !AllEmpty(r, |r|) ==> !IsTombstone(Won(r))
    ensures Output(r) == Output(s)
    decreases Total(s)
  {
    if AllEmpty(s, |s|) || !IsTombstone(Won(s)) then s
    else
      RoundProgress(s);
      PastTombstones(AfterRound(s))
  }

  lemma {:induction false} TombstoneRound(s: Sources, w: nat)
    requires BestOf(s, |s|, w) && IsTombstone(s[w][0])
    ensures AfterScan(s, |s|)[w] == s[w] && DropHead(AfterScan(s, |s|), w) == AfterRound(s)
    ensures PastTombstones(AfterRound(s)) == PastTombstones(s)
  {
    BestNotDropped(s, |s|, w);
    BestUnique(s, |s|, w, Winner(s));
    var r := DropHead(AfterScan(s, |s|), w);
    forall j | 0 <= j < |s| ensures r[j] == AfterRound(s)[j] {
      assert AfterRound(s)[j] == AfterRoundAt(s, j);
    }
    RoundProgress(s);
  }

  /** What Next leaves of sources that have been scanned is what the round leaves. */
  lemma {:induction false} ValueRound(s: Sources, rest: Sources)
    requires !AllEmpty(s, |s|) && !IsTombstone(Won(s)) && |rest| == |s|
    requires forall j | 0 <= j < |s| :: rest[j] == WithoutKey(AfterScan(s, |s|)[j], UKey(Won(s)))
    ensures Output(s) == [Won(s)] + Output(rest)
  {
    RoundProgress(s);
    forall j | 0 <= j < |s| ensures rest[j] == AfterRound(s)[j] {
      assert AfterRound(s)[j] == AfterRoundAt(s, j);
    }
    assert rest == AfterRound(s);
  }

  // ----- the versions of one key

  function Versions(run: seq<Entry>, k: Bytes): (r: seq<Entry>)
    ensures |r| <= |run|
  {
    if run == [] then [] else (if UKey(run[0]) == k then [run[0]] else []) + Versions(run[1..], k)
  }

  lemma {:induction false} VersionsMembers(run: seq<Entry>, k: Bytes, x: Entry)
    ensures x in Versions(run, k) <==> x in run && UKey(x) == k
  {
    if run != [] { VersionsMembers(run[1..], k, x); }
  }

  lemma {:induction false} VersionsDescend(run: seq<Entry>, k: Bytes)
    requires SortedRun(run)
    ensures forall a, b | 0 <= a < b < |Versions(run, k)| :: Ver(Versions(run, k)[a]) > Ver(Versions(run, k)[b])
    ensures forall a | 0 <= a < |Versions(run, k)| :: UKey(Versions(run, k)[a]) == k
  {
    if run != [] {
      var rest := Versions(run[1..], k);
      VersionsDescend(run[1..], k);
      forall a | 0 <= a < |rest| && UKey(run[0]) == k ensures Ver(run[0]) > Ver(rest[a]) {
        VersionsMembers(run[1..], k, rest[a]);
        var m :| 0 <= m < |run[1..]| && run[1..][m] == rest[a];
        assert Before(run[0], run[m + 1]);
        RankOrder(k, k);
      }
    }
  }

  lemma {:induction false} VersionsTail(run: seq<Entry>, k: Bytes)
    requires run != []
    ensures UKey(run[0]) != k ==> Versions(run[1..], k) == Versions(run, k)
    ensures UKey(run[0]) == k ==> Versions(run, k) != [] && Versions(run, k)[0] == run[0]
                                  && Versions(run[1..], k) == Versions(run, k)[1..]
  {
  }

  /** Removing another key leaves the versions alone. */
  lemma {:induction false} VersionsWithout(run: seq<Entry>, k: Bytes, other: Bytes)
    requires k != other
    ensures Versions(WithoutKey(run, other), k) == Versions(run, k)
  {
    if run != [] && UKey(run[0]) == other { VersionsWithout(run[1..], k, other); }
  }

  /** If no head lies below k, a source that holds k has it at its head. */
  lemma {:induction false} HeadHasKey(s: Sources, k: Bytes, j: nat)
    requires SortedSources(s) && NoneLower(s, |s|, k) && j < |s|
    ensures Versions(s[j], k) != [] ==> s[j] != [] && UKey(s[j][0]) == k && Versions(s[j], k)[0] == s[j][0]
  {
    if Versions(s[j], k) != [] {
      var x := Versions(s[j], k)[0];
      VersionsMembers(s[j], k, x);
      var m :| 0 <= m < |s[j]| && s[j][m] == x;
      Trichotomy(UKey(s[j][0]), k);
      RankOrder(UKey(s[j][0]), k);
      RankOrder(k, UKey(s[j][0]));
      assert m > 0 ==> Before(s[j][0], s[j][m]);
    }
  }

  /** Of the r-th newest versions of k in the sources, the one of source j is the newest, leftmost on ties. */
  ghost predicate RankWinner(s: Sources, k: Bytes, r: nat, j: nat) {
    && j < |s| && r < |Versions(s[j], k)|
    && forall l: nat | l < |s| && l != j && r < |Versions(s[l], k)| ::
         var (a, b) := (Versions(s[j], k)[r], Versions(s[l], k)[r]);
         Ver(a) > Ver(b) || (Ver(a) == Ver(b) && j < l)
  }

  /** For every rank, the newest of the sources' versions of k of that rank is a tombstone. */
  ghost predicate TombstonesWin(s: Sources, k: Bytes) {
    forall r: nat, j: nat | RankWinner(s, k, r, j) :: IsTombstone(Versions(s[j], k)[r])
  }

  /** (x, i) is the newest version of its key, leftmost on ties. */
  ghost predicate Newest(s: Sources, x: Entry, i: nat) {
    && InSources(s, x, i)
    && forall y, j | InSources(s, y, j) && UKey(y) == UKey(x) :: Ver(y) < Ver(x) || (Ver(y) == Ver(x) && i <= j)
  }

  lemma {:induction false} NewestUnique(s: Sources, x: Entry, i: nat, y: Entry, j: nat)
    requires SortedSources(s) && Newest(s, x, i) && Newest(s, y, j) && UKey(x) == UKey(y)
    ensures x == y && i == j
  {
    assert i == j;
    OneCopyPerSource(s, x, y, i);
  }

  /** The newest version comes first in its source. */
  lemma {:induction false} NewestLeads(s: Sources, x: Entry, i: nat)
    requires SortedSources(s) && Newest(s, x, i)
    ensures Versions(s[i], UKey(x)) != [] && Versions(s[i], UKey(x))[0] == x
    ensures RankWinner(s, UKey(x), 0, i)
  {
    var k := UKey(x);
    VersionsMembers(s[i], k, x);
    VersionsDescend(s[i], k);
    var v := Versions(s[i], k)[0];
    VersionsMembers(s[i], k, v);
    assert InSources(s, v, i);
    OneCopyPerSource(s, x, v, i);
    forall l: nat | l < |s| && l != i && Versions(s[l], k) != []
      ensures Ver(x) > Ver(Versions(s[l], k)[0]) || (Ver(x) == Ver(Versions(s[l], k)[0]) && i < l)
    {
      VersionsMembers(s[l], k, Versions(s[l], k)[0]);
      assert InSources(s, Versions(s[l], k)[0], l);
    }
  }

  lemma {:induction false} NewestExists(s: Sources, n: nat, k: Bytes) returns (x: Entry, i: nat)
    requires SortedSources(s) && n <= |s| && exists j: nat | j < n :: Versions(s[j], k) != []
    ensures i < n && UKey(x) == k && x in s[i]
    ensures forall y, j | InSources(s, y, j) && j < n && UKey(y) == k :: Ver(y) < Ver(x) || (Ver(y) == Ver(x) && i <= j)
  {
    var m := n - 1;
    var v := Versions(s[m], k);
    VersionsDescend(s[m], k);
    if v != [] { VersionsMembers(s[m], k, v[0]); }
    hide Versions, UKey, Ver, SortedRun;
    var earlier := exists j: nat | j < m :: Versions(s[j], k) != [];
    if earlier { x, i := NewestExists(s, m, k); }
    if !earlier || (v != [] && Ver(v[0]) > Ver(x)) { x, i := v[0], m; }
    forall y, j | InSources(s, y, j) && j < n && UKey(y) == k ensures Ver(y) < Ver(x) || (Ver(y) == Ver(x) && i <= j) {
      VersionsMembers(s[j], k, y);
      if j == m { var a :| 0 <= a < |v| && v[a] == y; }
    }
  }

  // ----- a round and the versions of one key

  /** A round of a smaller key takes at most the first version of k from a source, where it was beaten. */
  lemma {:induction false} RoundOfSmallerKey(s: Sources, k: Bytes, j: nat)
    requires SortedSources(s) && !AllEmpty(s, |s|) && Less(UKey(Won(s)), k) && j < |s|
    ensures var (now, next) := (Versions(s[j], k), Versions(AfterRound(s)[j], k));
            next == now || (now != [] && next == now[1..] && now[0] == s[j][0] && Drops(s, |s|, j))
  {
    var won, rest := UKey(Won(s)), AfterScan(s, |s|)[j];
    hide Versions, WithoutKey, Drops, UKey, Ver, IsTombstone, SortedSources, AllEmpty, Less, BestOf;
    RankOrder(won, k);
    VersionsWithout(rest, k, won);
    if s[j] != [] { VersionsTail(s[j], k); }
    assert AfterRound(s)[j] == AfterRoundAt(s, j);
  }

  lemma {:induction false} NewestNotDropped(s: Sources, x: Entry, i: nat)
    requires Newest(s, x, i) && s[i] != [] && s[i][0] == x
    ensures !Drops(s, |s|, i)
  {
    hide UKey, Ver, Less;
    RankOrder(UKey(x), UKey(x));
    forall l | 0 <= l < |s| ensures !Beaten(s, l, i) {
      if s[l] != [] { assert InSources(s, s[l][0], l); }
    }
  }

  /** The newest version of a key is there until its turn comes. */
  lemma {:induction false} NewestStays(s: Sources, x: Entry, i: nat)
    requires SortedSources(s) && !AllEmpty(s, |s|) && Less(UKey(Won(s)), UKey(x)) && Newest(s, x, i)
    ensures Newest(AfterRound(s), x, i)
  {
    hide Versions, Drops, AfterRoundAt;
    RoundProgress(s);
    RoundOfSmallerKey(s, UKey(x), i);
    NewestStaysIn(s, AfterRound(s), x, i);
  }

  /** It is there as long as a source loses a first version only where that was beaten. */
  lemma {:induction false} NewestStaysIn(s: Sources, r: Sources, x: Entry, i: nat)
    requires SortedSources(s) && Newest(s, x, i) && Suffixes(r, s)
    requires var (now, next) := (Versions(s[i], UKey(x)), Versions(r[i], UKey(x)));
             next == now || (now != [] && next == now[1..] && now[0] == s[i][0] && Drops(s, |s|, i))
    ensures Newest(r, x, i)
  {
    var k := UKey(x);
    hide Versions, UKey, Ver, Less, RankWinner, Drops, SortedRun, SortedSources;
    SuffixSorted(s, r);
    NewestLeads(s, x, i);
    if s[i] != [] && s[i][0] == x { NewestNotDropped(s, x, i); }
    VersionsMembers(r[i], k, x);
    assert InSources(r, x, i);
  }

  /** At the turn of k a tombstone's round takes the first version of k from every source. */
  lemma {:induction false} RoundOfTombstone(s: Sources, k: Bytes, j: nat)
    requires SortedSources(s) && !AllEmpty(s, |s|) && NoneLower(s, |s|, k) && j < |s|
    requires UKey(Won(s)) == k && IsTombstone(Won(s))
    ensures var (now, next) := (Versions(s[j], k), Versions(AfterRound(s)[j], k));
            next == if now == [] then [] else now[1..]
  {
    var w := Winner(s);
    HeadHasKey(s, k, j);
    if Versions(s[j], k) == [] {
      if s[j] != [] { assert s[j][0] != Won(s); }
    } else if j != w {
      assert Beaten(s, w, j);
    }
  }

  /** Once nothing lies below k, nothing ever does. */
  lemma {:induction false} TurnStays(s: Sources, r: Sources, k: Bytes)
    requires SortedSources(s) && NoneLower(s, |s|, k) && Suffixes(r, s)
    ensures NoneLower(r, |r|, k)
  {
    forall m | 0 <= m < |r| && r[m] != [] ensures !Less(UKey(r[m][0]), k) {
      var d := |s[m]| - |r[m]|;
      assert r[m][0] == s[m][d];
      if d > 0 {
        assert Before(s[m][0], s[m][d]);
        RankOrder(UKey(s[m][0]), UKey(s[m][d]));
        RankOrder(UKey(s[m][0]), k);
        RankOrder(UKey(s[m][d]), k);
      }
    }
  }

  /** At its turn the newest version of k wins. */
  lemma {:induction false} TurnWinner(s: Sources, k: Bytes)
    requires SortedSources(s) && NoneLower(s, |s|, k) && exists j: nat | j < |s| :: Versions(s[j], k) != []
    ensures !AllEmpty(s, |s|) && UKey(Won(s)) == k
    ensures RankWinner(s, k, 0, Winner(s)) && Versions(s[Winner(s)], k)[0] == Won(s)
  {
    hide Versions, UKey, Ver, Less, SortedSources;
    var j: nat :| j < |s| && Versions(s[j], k) != [];
    HeadHasKey(s, k, j);
    var w := Winner(s);
    BestIsLeast(s, |s|, w);
    Trichotomy(UKey(s[w][0]), k);
    VersionsMembers(s[w], k, s[w][0]);
    HeadHasKey(s, k, w);
    RankOrder(k, k);
    forall l: nat | l < |s| && l != w && Versions(s[l], k) != []
      ensures Ver(Won(s)) > Ver(Versions(s[l], k)[0]) || (Ver(Won(s)) == Ver(Versions(s[l], k)[0]) && w < l)
    {
      HeadHasKey(s, k, l);
      assert Beats(s, w, l);
    }
  }

  /** Passing a tombstone shifts the ranks by one. */
  lemma {:induction false} RanksShift(s: Sources, r: Sources, k: Bytes)
    requires |s| == |r|
    requires forall j | 0 <= j < |s| ::
               Versions(r[j], k) == if Versions(s[j], k) == [] then [] else Versions(s[j], k)[1..]
    requires forall j: nat | RankWinner(s, k, 0, j) :: IsTombstone(Versions(s[j], k)[0])
    ensures TombstonesWin(s, k) <==> TombstonesWin(r, k)
  {
    forall rank: nat, j: nat ensures RankWinner(r, k, rank, j) <==> RankWinner(s, k, rank + 1, j) {
    }
    if TombstonesWin(s, k) {
      forall rank: nat, j: nat | RankWinner(r, k, rank, j) ensures IsTombstone(Versions(r[j], k)[rank]) {
        assert RankWinner(s, k, rank + 1, j);
      }
    }
    if TombstonesWin(r, k) {
      forall rank: nat, j: nat | RankWinner(s, k, rank, j) ensures IsTombstone(Versions(s[j], k)[rank]) {
        if rank > 0 { assert RankWinner(r, k, rank - 1, j); }
      }
    }
  }

  lemma {:induction false} RankWinnerUnique(s: Sources, k: Bytes, r: nat, i: nat, j: nat)
    requires RankWinner(s, k, r, i) && RankWinner(s, k, r, j)
    ensures i == j
  {
  }

  lemma {:induction false} ValueWins(s: Sources, k: Bytes, r: nat, j: nat)
    requires RankWinner(s, k, r, j) && !IsTombstone(Versions(s[j], k)[r])
    ensures !TombstonesWin(s, k)
  {
  }

  // ----- what comes out

  lemma {:induction false} OutputMembers(s: Sources, x: Entry)
    requires x in Output(s)
    ensures (exists j :: InSources(s, x, j)) && !IsTombstone(x)
    decreases Total(s)
  {
    RoundProgress(s);
    if !IsTombstone(Won(s)) && x == Won(s) {
      assert InSources(s, x, Winner(s));
    } else {
      var r := AfterRound(s);
      OutputMembers(r, x);
      var j :| InSources(r, x, j);
      SuffixElement(r[j], s[j], x);
      assert InSources(s, x, j);
    }
  }

  lemma {:induction false} SuffixElement<T>(a: seq<T>, b: seq<T>, x: T)
    requires IsSuffix(a, b) && x in a
    ensures x in b
  {
    var m :| 0 <= m < |a| && a[m] == x;
    assert b[|b| - |a|..][m] == b[|b| - |a| + m];
  }

  ghost predicate Shows(s: Sources, k: Bytes) {
    exists x :: x in Output(s) && UKey(x) == k
  }

  lemma {:induction false} ShowsOnlyHeld(s: Sources, k: Bytes)
    requires forall j | 0 <= j < |s| :: Versions(s[j], k) == []
    ensures !Shows(s, k) && TombstonesWin(s, k)
  {
    if Shows(s, k) {
      var x :| x in Output(s) && UKey(x) == k;
      OutputMembers(s, x);
      var j :| InSources(s, x, j);
      VersionsMembers(s[j], k, x);
    }
  }

  /** After a value's round its key is gone. */
  lemma {:induction false} RoundOfValue(s: Sources, j: nat)
    requires SortedSources(s) && !AllEmpty(s, |s|) && !IsTombstone(Won(s)) && j < |s|
    ensures Versions(AfterRound(s)[j], UKey(Won(s))) == []
  {
    var k, w, rest := UKey(Won(s)), Winner(s), AfterScan(s, |s|)[j];
    BestIsLeast(s, |s|, w);
    assert IsSuffix(rest, s[j]) by { assert s[j][0..] == s[j]; }
    AllGone(s[j], rest, k);
  }

  lemma {:induction false} AllGone(run: seq<Entry>, rest: seq<Entry>, k: Bytes)
    requires SortedRun(run) && IsSuffix(rest, run) && (run != [] ==> !Less(UKey(run[0]), k))
    ensures Versions(WithoutKey(rest, k), k) == []
    decreases |rest|
  {
    if rest != [] {
      var d := |run| - |rest|;
      assert rest[1..] == run[d + 1..];
      if UKey(rest[0]) == k {
        AllGone(run, rest[1..], k);
      } else if Versions(rest, k) != [] {
        var x := Versions(rest, k)[0];
        VersionsMembers(rest, k, x);
        var m :| 0 <= m < |rest| && rest[m] == x;
        assert run[d] == rest[0] && run[d + m] == x;
        RankOrder(UKey(run[0]), UKey(run[d]));
        RankOrder(UKey(run[0]), k);
        RankOrder(UKey(run[d]), k);
        assert false;
      }
    }
  }

  /** At its turn a key is shown if and only if some rank is won by a value; the newest one, if it is a value. */
  lemma {:induction false} OutputAtTurn(s: Sources, k: Bytes)
    requires SortedSources(s) && NoneLower(s, |s|, k)
    ensures TombstonesWin(s, k) <==> !Shows(s, k)
    ensures forall x, i | Newest(s, x, i) && UKey(x) == k && !IsTombstone(x) ::
              x in Output(s) && forall y | y in Output(s) && UKey(y) == k :: y == x
    decreases Total(s)
  {
    hide Versions, UKey, Ver, NoneLower, TombstonesWin, RankWinner, SortedRun, SortedSources, Less, BestOf;
    hide AfterRoundAt, Suffixes;
    if forall j | 0 <= j < |s| :: Versions(s[j], k) == [] {
      ShowsOnlyHeld(s, k);
      forall x, i | InSources(s, x, i) && UKey(x) == k ensures false { VersionsMembers(s[i], k, x); }
    } else {
      TurnWinner(s, k);
      RoundProgress(s);
      var r := AfterRound(s);
      SuffixSorted(s, r);
      TurnStays(s, r, k);
      forall x, i | Newest(s, x, i) && UKey(x) == k ensures x == Won(s) {
        NewestLeads(s, x, i);
        RankWinnerUnique(s, k, 0, i, Winner(s));
      }
      if IsTombstone(Won(s)) {
        forall j | 0 <= j < |s|
          ensures Versions(r[j], k) == if Versions(s[j], k) == [] then [] else Versions(s[j], k)[1..]
        {
          RoundOfTombstone(s, k, j);
        }
        forall j: nat | RankWinner(s, k, 0, j) ensures j == Winner(s) { RankWinnerUnique(s, k, 0, j, Winner(s)); }
        RanksShift(s, r, k);
        OutputAtTurn(r, k);
        assert Shows(s, k) == Shows(r, k) by { assert Output(s) == Output(r); }
      } else {
        forall j | 0 <= j < |s| ensures Versions(r[j], k) == [] { RoundOfValue(s, j); }
        ShowsOnlyHeld(r, k);
        assert Won(s) in Output(s);
        ValueWins(s, k, 0, Winner(s));
      }
    }
  }

  // ----- when the output is exact

  /** What the sources hold when all smaller keys are done with. */
  ghost function AtTurn(s: Sources, k: Bytes): (r: Sources)
    decreases Total(s)
  {
    if AllEmpty(s, |s|) || !Less(UKey(Won(s)), k) then s
    else
      RoundProgress(s);
      AtTurn(AfterRound(s), k)
  }

  lemma {:induction false} TurnComes(s: Sources, k: Bytes)
    requires SortedSources(s)
    ensures var r := AtTurn(s, k); SortedSources(r) && Suffixes(r, s) && NoneLower(r, |r|, k)
    ensures forall x: Entry | UKey(x) == k :: x in Output(s) <==> x in Output(AtTurn(s, k))
    ensures forall x: Entry, i: nat | UKey(x) == k && Newest(s, x, i) :: Newest(AtTurn(s, k), x, i)
    decreases Total(s)
  {
    hide UKey, Ver, Less, BestOf, SortedSources, Newest, AfterRoundAt, SortedRun, Suffixes;
    SuffixesRefl(s);
    if AllEmpty(s, |s|) {
      assert NoneLower(s, |s|, k);
    } else if !Less(UKey(Won(s)), k) {
      LeastAbove(s, k);
    } else {
      RoundProgress(s);
      var r := AfterRound(s);
      SuffixSorted(s, r);
      TurnComes(r, k);
      SuffixesTrans(AtTurn(s, k), r, s);
      RankOrder(UKey(Won(s)), k);
      forall x: Entry, i: nat | UKey(x) == k && Newest(s, x, i) ensures Newest(r, x, i) { NewestStays(s, x, i); }
    }
  }

  lemma {:induction false} LeastAbove(s: Sources, k: Bytes)
    requires !AllEmpty(s, |s|) && !Less(UKey(Won(s)), k)
    ensures NoneLower(s, |s|, k)
  {
    var w := Winner(s);
    BestIsLeast(s, |s|, w);
    forall m | 0 <= m < |s| && s[m] != [] ensures !Less(UKey(s[m][0]), k) {
      RankOrder(UKey(s[m][0]), k);
      RankOrder(UKey(s[m][0]), UKey(s[w][0]));
      RankOrder(UKey(s[w][0]), k);
    }
  }

  /** Exactly the newest version of every key comes out, unless it is a tombstone. */
  ghost predicate OutputExact(s: Sources) {
    forall x :: x in Output(s) <==> !IsTombstone(x) && exists i: nat :: Newest(s, x, i)
  }

  /** At the turn of each deleted key, tombstones win all ranks of what the sources then hold of it. */
  ghost predicate DeletesHold(s: Sources) {
    forall x, i: nat | Newest(s, x, i) && IsTombstone(x) :: TombstonesWin(AtTurn(s, UKey(x)), UKey(x))
  }

  lemma {:induction false} NewestOf(s: Sources, y: Entry, j: nat) returns (x: Entry, i: nat)
    requires SortedSources(s) && InSources(s, y, j)
    ensures Newest(s, x, i) && UKey(x) == UKey(y)
  {
    VersionsMembers(s[j], UKey(y), y);
    x, i := NewestExists(s, |s|, UKey(y));
  }

  lemma {:induction false} DeletedIsHidden(s: Sources, x: Entry, i: nat)
    requires SortedSources(s) && Newest(s, x, i) && IsTombstone(x)
    ensures TombstonesWin(AtTurn(s, UKey(x)), UKey(x)) <==> !Shows(s, UKey(x))
  {
    var k := UKey(x);
    TurnComes(s, k);
    OutputAtTurn(AtTurn(s, k), k);
  }

  lemma {:induction false} ValueIsShown(s: Sources, x: Entry, i: nat)
    requires SortedSources(s) && Newest(s, x, i) && !IsTombstone(x)
    ensures x in Output(s) && forall y | y in Output(s) && UKey(y) == UKey(x) :: y == x
  {
    hide Newest, NoneLower, TombstonesWin;
    var k := UKey(x);
    TurnComes(s, k);
    OutputAtTurn(AtTurn(s, k), k);
  }

  /** The output is exact if and only if deletes hold. */
  lemma {:induction false} ExactIffDeletesHold(s: Sources)
    requires SortedSources(s)
    ensures OutputExact(s) <==> DeletesHold(s)
  {
    hide Newest, TombstonesWin, SortedSources, Shows;
    if OutputExact(s) {
      forall x, i: nat | Newest(s, x, i) && IsTombstone(x) ensures TombstonesWin(AtTurn(s, UKey(x)), UKey(x)) {
        ExactHides(s, x, i);
        DeletedIsHidden(s, x, i);
      }
    }
    if DeletesHold(s) {
      forall x ensures x in Output(s) <==> !IsTombstone(x) && exists i: nat :: Newest(s, x, i) {
        if x in Output(s) { HoldsThenNewest(s, x); }
        if i: nat :| Newest(s, x, i) && !IsTombstone(x) { ValueIsShown(s, x, i); }
      }
    }
  }

  lemma {:induction false} ExactHides(s: Sources, x: Entry, i: nat)
    requires SortedSources(s) && OutputExact(s) && Newest(s, x, i) && IsTombstone(x)
    ensures !Shows(s, UKey(x))
  {
    hide Newest, SortedSources;
    if Shows(s, UKey(x)) {
      var y :| y in Output(s) && UKey(y) == UKey(x);
      var j: nat :| Newest(s, y, j);
      NewestUnique(s, x, i, y, j);
    }
  }

  lemma {:induction false} HoldsThenNewest(s: Sources, x: Entry)
    requires SortedSources(s) && DeletesHold(s) && x in Output(s)
    ensures !IsTombstone(x) && exists i: nat :: Newest(s, x, i)
  {
    hide Newest, SortedSources, TombstonesWin;
    OutputMembers(s, x);
    var j :| InSources(s, x, j);
    var z, i := NewestOf(s, x, j);
    if IsTombstone(z) { DeletedIsHidden(s, z, i); } else { ValueIsShown(s, z, i); }
  }

  // ----- conditions on the sources as they are given

  /** No source to the right of two that hold k has a smaller key. */
  ghost predicate NothingSmallerBehind(s: Sources, k: Bytes) {
    forall a, b, c, y | 0 <= a < b < c < |s| && Versions(s[a], k) != [] && Versions(s[b], k) != [] && InSources(s, y, c)
      :: !Less(UKey(y), k)
  }

  lemma {:induction false} NoneTakenEarly(s: Sources, k: Bytes, j: nat)
    requires SortedSources(s) && !AllEmpty(s, |s|) && Less(UKey(Won(s)), k) && NothingSmallerBehind(s, k) && j < |s|
    ensures Versions(AfterRound(s)[j], k) == Versions(s[j], k)
  {
    hide Versions, UKey, Less, BestOf, SortedSources, AfterRoundAt, Beats, AllEmpty;
    RoundOfSmallerKey(s, k, j);
    if Versions(s[j], k) != [] && Drops(s, |s|, j) && UKey(s[j][0]) == k {
      var i :| 0 <= i < |s| && Beaten(s, i, j);
      NotBehind(s, k, i, j);
    }
    if Versions(s[j], k) != [] { VersionsMembers(s[j], k, Versions(s[j], k)[0]); }
  }

  lemma {:induction false} NotBehind(s: Sources, k: Bytes, i: nat, j: nat)
    requires !AllEmpty(s, |s|) && Less(UKey(Won(s)), k) && Beaten(s, i, j) && UKey(s[j][0]) == k
    ensures !NothingSmallerBehind(s, k)
  {
    hide Versions, Less;
    var c := Winner(s);
    RankOrder(k, k);
    assert c > Later(i, j);
    assert i != j;
    VersionsTail(s[i], k);
    VersionsTail(s[j], k);
    assert InSources(s, s[c][0], c);
  }

  /** Where nothing smaller lies behind, what counts is the ranks of the sources as given. */
  lemma {:induction false} RanksAsGiven(s: Sources, k: Bytes)
    requires SortedSources(s) && NothingSmallerBehind(s, k)
    ensures TombstonesWin(AtTurn(s, k), k) <==> TombstonesWin(s, k)
    decreases Total(s)
  {
    hide Versions, UKey, Less, BestOf, SortedSources, AfterRoundAt, TombstonesWin, NothingSmallerBehind, Suffixes;
    if !AllEmpty(s, |s|) && Less(UKey(Won(s)), k) {
      RoundProgress(s);
      var r := AfterRound(s);
      SuffixSorted(s, r);
      forall j | 0 <= j < |s| ensures Versions(r[j], k) == Versions(s[j], k) { NoneTakenEarly(s, k, j); }
      BehindSuffixes(s, r, k);
      RanksAsGiven(r, k);
      SameRanks(s, r, k);
    }
  }

  lemma {:induction false} BehindSuffixes(s: Sources, r: Sources, k: Bytes)
    requires NothingSmallerBehind(s, k) && Suffixes(r, s)
    requires forall j | 0 <= j < |s| :: Versions(r[j], k) == Versions(s[j], k)
    ensures NothingSmallerBehind(r, k)
  {
    hide Versions, UKey, Less;
    forall y, c | InSources(r, y, c) ensures InSources(s, y, c) { SuffixElement(r[c], s[c], y); }
  }

  lemma {:induction false} SameRanks(s: Sources, r: Sources, k: Bytes)
    requires |r| == |s| && forall j | 0 <= j < |s| :: Versions(r[j], k) == Versions(s[j], k)
    ensures TombstonesWin(r, k) <==> TombstonesWin(s, k)
  {
    hide Versions;
    forall rank: nat, j: nat ensures RankWinner(r, k, rank, j) <==> RankWinner(s, k, rank, j) {
    }
  }

  /** Two sources never have a third behind them. */
  lemma {:induction false} TwoSources(s: Sources, k: Bytes)
    requires SortedSources(s) && |s| <= 2
    ensures TombstonesWin(AtTurn(s, k), k) <==> TombstonesWin(s, k)
  {
    RanksAsGiven(s, k);
  }

  /** Every version of k but the first of its source is a tombstone. */
  ghost predicate OlderAreTombstones(s: Sources, k: Bytes) {
    forall j, r | 0 <= j < |s| && 1 <= r < |Versions(s[j], k)| :: IsTombstone(Versions(s[j], k)[r])
  }

  lemma {:induction false} VersionsSuffix(a: seq<Entry>, b: seq<Entry>, k: Bytes)
    requires IsSuffix(a, b)
    ensures IsSuffix(Versions(a, k), Versions(b, k))
    decreases |b|
  {
    if |a| == |b| {
      assert a == b;
    } else {
      assert a == b[1..][|b| - 1 - |a|..];
      VersionsSuffix(a, b[1..], k);
      SuffixTrans(Versions(a, k), Versions(b[1..], k), Versions(b, k));
    }
  }

  /** Then a delete holds wherever the other keys lie. */
  lemma {:induction false} OlderTombstonesSuffice(s: Sources, x: Entry, i: nat)
    requires SortedSources(s) && Newest(s, x, i) && IsTombstone(x) && OlderAreTombstones(s, UKey(x))
    ensures TombstonesWin(AtTurn(s, UKey(x)), UKey(x))
  {
    hide Versions, UKey, Newest, SortedSources, NoneLower, Output, AtTurn, OlderAreTombstones;
    var k := UKey(x);
    var t := AtTurn(s, k);
    TurnComes(s, k);
    NewestLeads(t, x, i);
    forall rank: nat, j: nat | RankWinner(t, k, rank, j) ensures IsTombstone(Versions(t[j], k)[rank]) {
      if rank == 0 { RankWinnerUnique(t, k, 0, i, j); } else { OlderStays(s, t, k, rank, j); }
    }
  }

  lemma {:induction false} OlderStays(s: Sources, t: Sources, k: Bytes, rank: nat, j: nat)
    requires OlderAreTombstones(s, k) && Suffixes(t, s) && j < |t| && 1 <= rank < |Versions(t[j], k)|
    ensures IsTombstone(Versions(t[j], k)[rank])
  {
    hide Versions, UKey;
    VersionsSuffix(t[j], s[j], k);
    var d := |Versions(s[j], k)| - |Versions(t[j], k)|;
    assert Versions(t[j], k)[rank] == Versions(s[j], k)[d..][rank] == Versions(s[j], k)[d + rank];
  }

  // ----- three sources, where the ranks as given do not decide

  /** Versions of one key in two sources, the second with two, and a smaller key in a third source behind. */
  ghost predicate SmallerBehind(s: Sources, a: Entry, b: Entry, d: Entry, c: Entry) {
    && |s| == 3 && s[0] != [] && s[0][0] == a && s[1] == [b, d] && s[2] == [c]
    && (forall x | x in s[0] :: UKey(x) == UKey(a))
    && UKey(a) == UKey(b) == UKey(d) && Ver(a) > Ver(b) > Ver(d)
    && Less(UKey(c), UKey(a)) && !IsTombstone(c) && IsTombstone(a)
  }

  /** The round of c moves the second source on, although its key is not c's. */
  lemma {:induction false} EarlyDrop(s: Sources, a: Entry, b: Entry, d: Entry, c: Entry)
    requires SmallerBehind(s, a, b, d, c)
    ensures !AllEmpty(s, 3) && Won(s) == c && AfterRound(s) == [s[0], [d], []]
  {
    hide UKey, Ver, Less, IsTombstone, BestOf, Drops;
    EarlyDropScan(s, a, b, d, c);
    BestUnique(s, 3, 2, Winner(s));
    RankOrder(UKey(a), UKey(c));
    RankOrder(UKey(c), UKey(a));
    var k := UKey(c);
    assert WithoutKey([c], k) == [];
    assert AfterRoundAt(s, 0) == s[0] && AfterRoundAt(s, 1) == [d] && AfterRoundAt(s, 2) == [];
  }

  lemma {:induction false} EarlyDropScan(s: Sources, a: Entry, b: Entry, d: Entry, c: Entry)
    requires SmallerBehind(s, a, b, d, c)
    ensures !AllEmpty(s, 3) && BestOf(s, 3, 2) && AfterScan(s, 3) == [s[0], [d], [c]]
  {
    hide UKey, Ver, Less, IsTombstone;
    RankOrder(UKey(c), UKey(a));
    RankOrder(UKey(a), UKey(a));
    RankOrder(UKey(a), UKey(c));
    RankOrder(UKey(c), UKey(c));
    assert Beaten(s, 0, 1);
    assert !Drops(s, 3, 0) && !Drops(s, 3, 2);
  }

  lemma {:induction false} TurnAfterEarlyDrop(s: Sources, a: Entry, b: Entry, d: Entry, c: Entry)
    requires SmallerBehind(s, a, b, d, c)
    ensures AtTurn(s, UKey(a)) == [s[0], [d], []]
  {
    var k := UKey(a);
    EarlyDrop(s, a, b, d, c);
    IsTurn([s[0], [d], []], k);
    hide Less, AfterRoundAt, Winner, UKey, Ver, IsTombstone;
    RoundProgress(s);
    assert AtTurn(s, k) == AtTurn(AfterRound(s), k);
  }

  lemma {:induction false} IsTurn(s: Sources, k: Bytes)
    requires forall j | 0 <= j < |s| && s[j] != [] :: UKey(s[j][0]) == k
    ensures AtTurn(s, k) == s
  {
    RankOrder(k, k);
  }

  lemma {:induction false} SmallerBehindOk(s: Sources, a: Entry, b: Entry, d: Entry, c: Entry)
    requires SmallerBehind(s, a, b, d, c) && SortedRun(s[0])
    ensures SortedSources(s) && Newest(s, a, 0)
    ensures forall x, i: nat | Newest(s, x, i) && IsTombstone(x) :: UKey(x) == UKey(a)
  {
    hide UKey, Ver, Less, IsTombstone;
    RankOrder(UKey(a), UKey(a));
    forall x | x in s[0] ensures x == a || Ver(x) < Ver(a) {
      var m :| 0 <= m < |s[0]| && s[0][m] == x;
      assert m > 0 ==> Before(s[0][0], s[0][m]);
    }
    assert InSources(s, a, 0);
  }

  /** The versions of k when the third source has none. */
  ghost predicate VersionsAre(s: Sources, k: Bytes, v: seq<Entry>, w: seq<Entry>) {
    |s| == 3 && Versions(s[0], k) == v && Versions(s[1], k) == w && Versions(s[2], k) == []
  }

  lemma {:induction false} SmallerBehindVersions(s: Sources, a: Entry, b: Entry, d: Entry, c: Entry)
    requires SmallerBehind(s, a, b, d, c)
    ensures VersionsAre(s, UKey(a), Versions(s[0], UKey(a)), [b, d])
    ensures VersionsAre([s[0], [d], []], UKey(a), Versions(s[0], UKey(a)), [d])
  {
    hide UKey, Ver, Less, IsTombstone;
    RankOrder(UKey(c), UKey(a));
    var k := UKey(a);
    assert Versions([d], k) == [d];
    assert Versions([b, d], k) == [b] + Versions([b, d][1..], k);
    assert [b, d][1..] == [d];
  }

  /** Tombstones win every rank as given, and still an older version is shown. */
  lemma {:induction false} RanksDoNotSuffice(a: Entry, a': Entry, b: Entry, d: Entry, c: Entry)
    requires SmallerBehind([[a, a'], [b, d], [c]], a, b, d, c)
    requires Ver(d) > Ver(a') && IsTombstone(b) && IsTombstone(d) && !IsTombstone(a')
    ensures var s := [[a, a'], [b, d], [c]];
            SortedSources(s) && Newest(s, a, 0) && TombstonesWin(s, UKey(a)) && !OutputExact(s)
  {
    var s: Sources, k := [[a, a'], [b, d], [c]], UKey(a);
    hide Less, UKey, Ver, IsTombstone;
    assert a' in s[0];
    assert Versions(s[0], k) == [a, a'] by {
      assert [a, a'][1..] == [a'] && Versions([a'], k) == [a'];
    }
    hide Versions, AtTurn, Newest, TombstonesWin, OutputExact, DeletesHold, VersionsAre;
    assert SortedRun(s[0]);
    SmallerBehindOk(s, a, b, d, c);
    SmallerBehindVersions(s, a, b, d, c);
    TombstonesWinBoth(s, k, a, a', b, d);
    TurnAfterEarlyDrop(s, a, b, d, c);
    ValueWinsAlone([[a, a'], [d], []], k, a, a', d);
    ExactIffDeletesHold(s);
    NotHeld(s, a, 0);
  }

  lemma {:induction false} TombstonesWinBoth(s: Sources, k: Bytes, a: Entry, a': Entry, b: Entry, d: Entry)
    requires VersionsAre(s, k, [a, a'], [b, d]) && Ver(a) > Ver(b) && Ver(d) > Ver(a')
    requires IsTombstone(a) && IsTombstone(d)
    ensures TombstonesWin(s, k)
  {
    hide Versions, Ver, IsTombstone;
    assert RankWinner(s, k, 0, 0) && RankWinner(s, k, 1, 1);
  }

  lemma {:induction false} ValueWinsAlone(s: Sources, k: Bytes, a: Entry, a': Entry, d: Entry)
    requires VersionsAre(s, k, [a, a'], [d]) && !IsTombstone(a')
    ensures !TombstonesWin(s, k)
  {
    hide Versions, Ver, IsTombstone;
    ValueWins(s, k, 1, 0);
  }

  lemma {:induction false} NotHeld(s: Sources, x: Entry, i: nat)
    requires Newest(s, x, i) && IsTombstone(x) && !TombstonesWin(AtTurn(s, UKey(x)), UKey(x))
    ensures !DeletesHold(s)
  {
  }

  /** A value wins a rank as given, and still the output is exact. */
  lemma {:induction false} RanksAreNotNeeded(a: Entry, b: Entry, d: Entry, c: Entry)
    requires SmallerBehind([[a], [b, d], [c]], a, b, d, c) && !IsTombstone(d)
    ensures var s := [[a], [b, d], [c]];
            SortedSources(s) && Newest(s, a, 0) && !TombstonesWin(s, UKey(a)) && OutputExact(s)
  {
    var s: Sources, k := [[a], [b, d], [c]], UKey(a);
    var t: Sources := [[a], [d], []];
    hide Less, UKey, Ver, IsTombstone;
    assert Versions(s[0], k) == [a];
    hide Versions, AtTurn, Newest, TombstonesWin, OutputExact, VersionsAre;
    SmallerBehindOk(s, a, b, d, c);
    SmallerBehindVersions(s, a, b, d, c);
    TurnAfterEarlyDrop(s, a, b, d, c);
    SecondWinsLast(s, k, a, b, d);
    FirstWinsAlone(t, k, a, d);
    ExactIffDeletesHold(s);
  }

  lemma {:induction false} SecondWinsLast(s: Sources, k: Bytes, a: Entry, b: Entry, d: Entry)
    requires VersionsAre(s, k, [a], [b, d]) && !IsTombstone(d)
    ensures !TombstonesWin(s, k)
  {
    hide Versions, Ver, IsTombstone;
    ValueWins(s, k, 1, 1);
  }

  lemma {:induction false} FirstWinsAlone(s: Sources, k: Bytes, a: Entry, d: Entry)
    requires VersionsAre(s, k, [a], [d]) && IsTombstone(a) && Ver(a) > Ver(d)
    ensures TombstonesWin(s, k)
  {
    hide Versions, Ver, IsTombstone;
    assert RankWinner(s, k, 0, 0);
  }
}
