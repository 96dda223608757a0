/**
 What a merge of versioned sources must produce. A source is a sequence of entries sorted by
 unversioned key and, within a key, newest version first. This module relates that order to the
 byte order of stored keys, states the invariant a merge keeps between what it was given, what its
 sources still hold and what it has handed out, and draws from it the two meanings of a finished
 merge: a query sees the newest eligible version of every key, and a compaction changes no snapshot
 at or above its bound.
 */
module MergeSpec {
  import opened Bytes
  import opened KeyEncoding

  datatype KV = KV(key: Bytes, value: Bytes)

  /** Stored keys end in eight version bytes. */
  type Entry = e: KV | |e.key| >= 8 witness KV([0, 0, 0, 0, 0, 0, 0, 0], [])

  function UKey(e: Entry): Bytes { e.key[..|e.key| - 8] }

  function Ver(e: Entry): UInt64 { MAX_UINT64 - DecodeUint64(e.key[|e.key| - 8..]) }

  predicate IsTombstone(e: Entry) { e.value == [] }

  /** Key ascending, then version descending. */
  predicate Before(a: Entry, b: Entry) {
    Less(UKey(a), UKey(b)) || (UKey(a) == UKey(b) && Ver(a) > Ver(b))
  }

  predicate SameKeyAndVersion(a: Entry, b: Entry) {
    UKey(a) == UKey(b) && Ver(a) == Ver(b)
  }

  ghost predicate SortedRun(s: seq<Entry>) {
    forall i, j | 0 <= i < j < |s| :: Before(s[i], s[j])
  }

  // ----- the byte order of stored keys

  ghost predicate ByteSorted(s: seq<Entry>) {
    forall i, j | 0 <= i < j < |s| :: Less(s[i].key, s[j].key)
  }

  lemma {:induction false} BigEndianOnto(b: Bytes)
    ensures BigEndian(FromBigEndian(b), |b|) == b
  {
    if b != [] {
      var n := |b| - 1;
      BigEndianOnto(b[..n]);
      assert b == b[..n] + [b[n]];
    }
  }

  lemma {:induction false} KeyParts(e: Entry)
    ensures e.key == EncodeVersion(UKey(e), Ver(e))
  {
    BigEndianOnto(e.key[|e.key| - 8..]);
    assert e.key == UKey(e) + e.key[|e.key| - 8..];
  }

  /**
   Byte order and (key, version descending) order coincide for two stored keys unless one
   unversioned key is a proper prefix of the other.
   */
  lemma {:induction false} ByteOrderIsEntryOrder(a: Entry, b: Entry)
    requires UKey(a) == UKey(b) || (!IsPrefix(UKey(a), UKey(b)) && !IsPrefix(UKey(b), UKey(a)))
    ensures Less(a.key, b.key) <==> Before(a, b)
  {
    RankOrder(a.key, b.key);
    RankOrder(b.key, a.key);
    Trichotomy(UKey(a), UKey(b));
    RankOrder(UKey(a), UKey(b));
    if Before(a, b) {
      BeforeGivesLess(a, b);
    } else if Before(b, a) {
      BeforeGivesLess(b, a);
    } else {
      KeyParts(a);
      KeyParts(b);
    }
  }

  lemma {:induction false} BeforeGivesLess(a: Entry, b: Entry)
    requires Before(a, b) && (UKey(a) == UKey(b) || !IsPrefix(UKey(a), UKey(b)))
    ensures Less(a.key, b.key)
  {
    if UKey(a) == UKey(b) {
      KeyParts(a);
      KeyParts(b);
      RankOrder(UKey(a), UKey(b));
      VersionOrder(UKey(a), Ver(a), Ver(b));
    } else {
      var va, vb := a.key[|a.key| - 8..], b.key[|b.key| - 8..];
      assert a.key == UKey(a) + va && b.key == UKey(b) + vb;
      LessIsStrong(UKey(a), UKey(b));
      StrongLessAppend(UKey(a), va, UKey(b), vb);
    }
  }

  lemma {:induction false} VersionOrder(k: Bytes, v: UInt64, w: UInt64)
    ensures v > w ==> Less(EncodeVersion(k, v), EncodeVersion(k, w))
  {
    if v > w {
      Uint64Codec(MAX_UINT64 - v, MAX_UINT64 - w);
      var x, y := EncodeUint64(MAX_UINT64 - v), EncodeUint64(MAX_UINT64 - w);
      StrongLessAppend(x, [], y, []);
      assert x + [] == x && y + [] == y;
      PrependLess(k, x, y);
    }
  }

  /** All unversioned keys of the run belong to u. */
  ghost predicate KeysIn(s: seq<Entry>, u: iset<Bytes>) {
    forall i | 0 <= i < |s| :: UKey(s[i]) in u
  }

  /** On prefix-free keys a run is sorted bytewise exactly when it is sorted as the merge needs. */
  lemma {:induction false} ByteSortedIffSortedRun(s: seq<Entry>, u: iset<Bytes>)
    requires PrefixFree(u) && KeysIn(s, u)
    ensures ByteSorted(s) <==> SortedRun(s)
  {
    forall i, j | 0 <= i < j < |s| ensures Less(s[i].key, s[j].key) <==> Before(s[i], s[j]) {
      ByteOrderIsEntryOrder(s[i], s[j]);
    }
  }

  /** Without prefix-freedom the two orders disagree: "a"@0 against "aa"@max. */
  lemma {:induction false} PrefixKeysBreakTheOrder()
    ensures exists a: Entry, b: Entry :: Less(b.key, a.key) && Before(a, b)
  {
    var a := KV([97] + [255, 255, 255, 255, 255, 255, 255, 255], [1]);
    var b := KV([97, 97] + [0, 0, 0, 0, 0, 0, 0, 0], [1]);
    assert UKey(a) == [97] && UKey(b) == [97, 97];
    assert Less(b.key[1..], a.key[1..]);
    assert Less(UKey(a)[1..], UKey(b)[1..]);
    assert Less(b.key, a.key) && Before(a, b);
  }

  // ----- the merge invariant

  /** An entry together with the index of the source it came from. */
  datatype Tagged = Tagged(e: Entry, src: nat)

  datatype Bounds = Bounds(highest: UInt64, minNonCompactable: UInt64)

  predicate Eligible(e: Entry, p: Bounds) { Ver(e) <= p.highest }

  /** (y, j) makes (x, i) redundant: a copy in no later source, or a newer compactable version. */
  predicate Covers(y: Entry, j: nat, x: Entry, i: nat, p: Bounds) {
    UKey(y) == UKey(x) && ((Ver(y) == Ver(x) && j <= i) || Ver(x) < Ver(y) < p.minNonCompactable)
  }

  type Sources = seq<seq<Entry>>

  ghost predicate InSources(s: Sources, e: Entry, i: int) {
    0 <= i < |s| && e in s[i]
  }

  ghost predicate Held(iters: Sources, done: seq<Tagged>, y: Entry, j: nat) {
    Tagged(y, j) in done || InSources(iters, y, j)
  }

  ghost predicate Accounted(iters: Sources, done: seq<Tagged>, x: Entry, i: nat, p: Bounds) {
    exists y: Entry, j: nat :: Held(iters, done, y, j) && Eligible(y, p) && Covers(y, j, x, i, p)
  }

  predicate IsSuffix<T(==)>(a: seq<T>, b: seq<T>) {
    |a| <= |b| && b[|b| - |a|..] == a
  }

  ghost predicate SortedSources(s: Sources) {
    forall i | 0 <= i < |s| :: SortedRun(s[i])
  }

  ghost predicate Suffixes(iters: Sources, input: Sources) {
    |iters| == |input| && forall i | 0 <= i < |iters| :: IsSuffix(iters[i], input[i])
  }

  ghost predicate DoneOk(input: Sources, done: seq<Tagged>, p: Bounds) {
    && (forall i | 0 <= i < |done| :: InSources(input, done[i].e, done[i].src) && Eligible(done[i].e, p))
    && (forall i, j | 0 <= i < j < |done| :: Before(done[i].e, done[j].e))
  }

  ghost predicate Ahead(iters: Sources, done: seq<Tagged>, p: Bounds) {
    forall d, x, i | d in done && InSources(iters, x, i) && Eligible(x, p) :: Before(d.e, x)
  }

  ghost predicate AllAccounted(input: Sources, iters: Sources, done: seq<Tagged>, p: Bounds) {
    forall x, i | InSources(input, x, i) && Eligible(x, p) :: Accounted(iters, done, x, i, p)
  }

  /** What the merge knows at every moment: `done` are the entries it has chosen and moved past. */
  ghost predicate MergeInv(input: Sources, iters: Sources, done: seq<Tagged>, p: Bounds) {
    && SortedSources(input)
    && Suffixes(iters, input)
    && DoneOk(input, done, p)
    && Ahead(iters, done, p)
    && AllAccounted(input, iters, done, p)
  }

  lemma {:induction false} InitialInv(input: Sources, p: Bounds)
    requires SortedSources(input)
    ensures MergeInv(input, input, [], p)
  {
    forall x, i | InSources(input, x, i) && Eligible(x, p)
      ensures Accounted(input, [], x, i, p)
    {
      assert Held(input, [], x, i) && Covers(x, i, x, i, p);
    }
  }

  /** Sources held are sorted, and hold each entry once. */
  lemma {:induction false} SuffixSorted(input: Sources, iters: Sources)
    requires SortedSources(input) && Suffixes(iters, input)
    ensures SortedSources(iters)
    ensures forall i, x | InSources(iters, x, i) :: InSources(input, x, i)
  {
    forall i | 0 <= i < |iters| ensures SortedRun(iters[i]) {
      var d := |input[i]| - |iters[i]|;
      assert forall k | 0 <= k < |iters[i]| :: iters[i][k] == input[i][d..][k] == input[i][d + k];
    }
    forall i, x | InSources(iters, x, i) ensures InSources(input, x, i) {
      var k :| 0 <= k < |iters[i]| && iters[i][k] == x;
      var d := |input[i]| - |iters[i]|;
      assert input[i][d..][k] == input[i][d + k];
    }
  }

  function DropHead(iters: Sources, i: nat): (r: Sources)
    requires i < |iters| && iters[i] != []
    ensures |r| == |iters|
  {
    iters[i := iters[i][1..]]
  }

  lemma {:induction false} DropHeadMembers(iters: Sources, i: nat)
    requires SortedSources(iters) && i < |iters| && iters[i] != []
    ensures SortedSources(DropHead(iters, i))
    ensures forall y, j | InSources(iters, y, j) ::
              InSources(DropHead(iters, i), y, j) || (j == i && y == iters[i][0])
    ensures forall y, j | InSources(DropHead(iters, i), y, j) ::
              InSources(iters, y, j) && (j == i ==> Before(iters[i][0], y))
  {
    var r := DropHead(iters, i);
    forall y, j | InSources(iters, y, j)
      ensures InSources(r, y, j) || (j == i && y == iters[i][0])
    {
      var k :| 0 <= k < |iters[j]| && iters[j][k] == y;
      if j == i && k > 0 { assert iters[i][1..][k - 1] == y; }
    }
    forall y, j | InSources(r, y, j)
      ensures InSources(iters, y, j) && (j == i ==> Before(iters[i][0], y))
    {
      if j == i {
        var k :| 0 <= k < |r[i]| && r[i][k] == y;
        assert iters[i][k + 1] == y;
      }
    }
  }

  lemma {:induction false} DropHeadSuffix(input: Sources, iters: Sources, i: nat)
    requires Suffixes(iters, input) && i < |iters| && iters[i] != []
    ensures Suffixes(DropHead(iters, i), input)
  {
    var r := DropHead(iters, i);
    forall k | 0 <= k < |r| ensures IsSuffix(r[k], input[k]) {
      if k == i {
        var d := |input[i]| - |iters[i]|;
        assert input[i][d + 1..] == input[i][d..][1..];
      }
    }
  }

  /** How many entries the sources still hold. */
  ghost function Total(s: Sources): nat {
    if s == [] then 0 else |s[0]| + Total(s[1..])
  }

  lemma {:induction false} TotalSuffixes(a: Sources, b: Sources)
    requires Suffixes(a, b)
    ensures Total(a) <= Total(b)
    ensures (exists i | 0 <= i < |a| :: |a[i]| < |b[i]|) ==> Total(a) < Total(b)
  {
    if a != [] {
      TotalSuffixes(a[1..], b[1..]);
      if i :| 0 <= i < |a| && |a[i]| < |b[i]| {
        assert i > 0 ==> |a[1..][i - 1]| < |b[1..][i - 1]|;
      }
    }
  }

  lemma {:induction false} SuffixesRefl(a: Sources)
    ensures Suffixes(a, a)
  {
    assert forall i | 0 <= i < |a| :: a[i][0..] == a[i];
  }

  lemma {:induction false} SuffixesTrans(a: Sources, b: Sources, c: Sources)
    requires Suffixes(a, b) && Suffixes(b, c)
    ensures Suffixes(a, c)
  {
    forall i | 0 <= i < |a| ensures IsSuffix(a[i], c[i]) {
      var d := |c[i]| - |b[i]|;
      var e := |b[i]| - |a[i]|;
      assert c[i][d + e..] == c[i][d..][e..];
    }
  }

  lemma {:induction false} CoversTrans(z: Entry, l: nat, y: Entry, j: nat, x: Entry, i: nat, p: Bounds)
    requires Covers(z, l, y, j, p) && Covers(y, j, x, i, p)
    ensures Covers(z, l, x, i, p)
  {
  }

  /**
   A source may move past its head if the head is too new to be seen, or if an entry still held
   (or already chosen) covers it.
   */
  lemma {:induction false} DropKeepsInv(input: Sources, iters: Sources, done: seq<Tagged>, p: Bounds, i: nat, z: Entry,
                                        l: nat)
    requires MergeInv(input, iters, done, p)
    requires i < |iters| && iters[i] != []
    requires !Eligible(iters[i][0], p)
             || (Held(DropHead(iters, i), done, z, l) && Eligible(z, p) && Covers(z, l, iters[i][0], i, p))
    ensures MergeInv(input, DropHead(iters, i), done, p)
  {
    var r, h := DropHead(iters, i), iters[i][0];
    SuffixSorted(input, iters);
    DropHeadMembers(iters, i);
    DropHeadSuffix(input, iters, i);
    forall x, k | InSources(input, x, k) && Eligible(x, p) ensures Accounted(r, done, x, k, p) {
      assert Accounted(iters, done, x, k, p);
      var y: Entry, j: nat :| Held(iters, done, y, j) && Eligible(y, p) && Covers(y, j, x, k, p);
      if Held(r, done, y, j) {
      } else {
        CoversTrans(z, l, y, j, x, k, p);
      }
    }
  }

  /** The head of source i precedes every other eligible entry the sources hold. */
  ghost predicate Least(iters: Sources, i: nat, p: Bounds) {
    && i < |iters| && iters[i] != [] && Eligible(iters[i][0], p)
    && forall x, j | InSources(iters, x, j) && Eligible(x, p) ::
         (j == i && x == iters[i][0]) || Before(iters[i][0], x)
  }

  /** Moving past the least entry adds it to what is done. */
  lemma {:induction false} ChooseKeepsInv(input: Sources, iters: Sources, done: seq<Tagged>, p: Bounds, i: nat)
    requires MergeInv(input, iters, done, p) && Least(iters, i, p)
    ensures MergeInv(input, DropHead(iters, i), done + [Tagged(iters[i][0], i)], p)
  {
    var r, h := DropHead(iters, i), iters[i][0];
    var done' := done + [Tagged(h, i)];
    SuffixSorted(input, iters);
    DropHeadMembers(iters, i);
    DropHeadSuffix(input, iters, i);
    assert InSources(iters, h, i);
    forall k | 0 <= k < |done'|
      ensures InSources(input, done'[k].e, done'[k].src) && Eligible(done'[k].e, p)
    {
    }
    forall a, b | 0 <= a < b < |done'| ensures Before(done'[a].e, done'[b].e) {
      if b == |done| { assert done[a] in done; }
    }
    forall d, x, k | d in done' && InSources(r, x, k) && Eligible(x, p) ensures Before(d.e, x) {
      if d !in done {
        assert InSources(iters, x, k);
        if k == i { assert Before(h, x); }
      }
    }
    RankOrderAll();
    forall x, k | InSources(input, x, k) && Eligible(x, p) ensures Accounted(r, done', x, k, p) {
      assert Accounted(iters, done, x, k, p);
      var y: Entry, j: nat :| Held(iters, done, y, j) && Eligible(y, p) && Covers(y, j, x, k, p);
      assert Held(r, done', y, j) by {
        if InSources(iters, y, j) && !InSources(r, y, j) { assert done'[|done|] == Tagged(y, j); }
      }
    }
  }

  // ----- what a finished merge means

  ghost predicate NothingLeft(iters: Sources, p: Bounds) {
    forall x, i | InSources(iters, x, i) :: !Eligible(x, p)
  }

  /** (x, i) is the newest version of its key that v admits, from the leftmost source holding it. */
  ghost predicate IsLatest(s: Sources, v: int, x: Entry, i: nat) {
    && InSources(s, x, i) && Ver(x) <= v
    && forall y, j | InSources(s, y, j) && UKey(y) == UKey(x) && Ver(y) <= v ::
         Ver(y) < Ver(x) || (Ver(y) == Ver(x) && i <= j)
  }

  lemma {:induction false} OneCopyPerSource(s: Sources, x: Entry, y: Entry, i: nat)
    requires SortedSources(s) && InSources(s, x, i) && InSources(s, y, i) && SameKeyAndVersion(x, y)
    ensures x == y
  {
    var a :| 0 <= a < |s[i]| && s[i][a] == x;
    var b :| 0 <= b < |s[i]| && s[i][b] == y;
    var run := s[i];
    assert a == b || Before(run[a], run[b]) || Before(run[b], run[a]);
    RankOrder(UKey(x), UKey(y));
  }

  lemma {:induction false} DoneUnique(input: Sources, done: seq<Tagged>, p: Bounds, a: Tagged, b: Tagged)
    requires DoneOk(input, done, p) && a in done && b in done && SameKeyAndVersion(a.e, b.e)
    ensures a == b
  {
    var i :| 0 <= i < |done| && done[i] == a;
    var j :| 0 <= j < |done| && done[j] == b;
    assert i == j || Before(done[i].e, done[j].e) || Before(done[j].e, done[i].e);
    RankOrder(UKey(a.e), UKey(b.e));
  }

  /** At the end, every eligible entry is covered by a chosen one. */
  lemma {:induction false} CoveredByDone(input: Sources, iters: Sources, done: seq<Tagged>, p: Bounds, x: Entry, i: nat)
    returns (d: Tagged)
    requires MergeInv(input, iters, done, p) && NothingLeft(iters, p)
    requires InSources(input, x, i) && Eligible(x, p)
    ensures d in done && Covers(d.e, d.src, x, i, p)
    ensures InSources(input, d.e, d.src) && Eligible(d.e, p)
  {
    assert Accounted(iters, done, x, i, p);
    var y: Entry, j: nat :| Held(iters, done, y, j) && Eligible(y, p) && Covers(y, j, x, i, p);
    d := Tagged(y, j);
    var k :| 0 <= k < |done| && done[k] == d;
  }

  /**
   Nothing is lost: every entry that no newer compactable version shadows is chosen, from the
   leftmost source that holds it.
   */
  lemma {:induction false} UnshadowedIsChosen(input: Sources, iters: Sources, done: seq<Tagged>, p: Bounds, x: Entry,
                                              i: nat)
    requires MergeInv(input, iters, done, p) && NothingLeft(iters, p)
    requires InSources(input, x, i) && Eligible(x, p)
    requires forall y, j | InSources(input, y, j) && UKey(y) == UKey(x) && Eligible(y, p) ::
               !(Ver(x) < Ver(y) < p.minNonCompactable) && (Ver(y) == Ver(x) ==> i <= j)
    ensures Tagged(x, i) in done
  {
    var d := CoveredByDone(input, iters, done, p, x, i);
    assert d.src == i;
    OneCopyPerSource(input, x, d.e, i);
  }

  /** An entry at or above the bound is lost only to an exact copy in an earlier source. */
  lemma {:induction false} NonCompactableKept(input: Sources, iters: Sources, done: seq<Tagged>, p: Bounds, x: Entry,
                                              i: nat)
    requires MergeInv(input, iters, done, p) && NothingLeft(iters, p)
    requires InSources(input, x, i) && p.minNonCompactable <= Ver(x) <= p.highest
    requires forall y, j | InSources(input, y, j) && SameKeyAndVersion(x, y) :: i <= j
    ensures Tagged(x, i) in done
  {
    UnshadowedIsChosen(input, iters, done, p, x, i);
  }

  /** The chosen entries as one source. */
  function Entries(done: seq<Tagged>): (r: seq<Entry>)
    ensures |r| == |done| && forall k | 0 <= k < |r| :: r[k] == done[k].e
  {
    seq(|done|, k requires 0 <= k < |done| => done[k].e)
  }

  /**
   Compaction keeps every snapshot: for every version bound at or above the smallest
   non-compactable version, the newest admitted entry of every key is the same before and after.
   */
  lemma {:induction false} SnapshotsPreserved(input: Sources, iters: Sources, done: seq<Tagged>, p: Bounds, v: int,
                                              x: Entry)
    requires MergeInv(input, iters, done, p) && NothingLeft(iters, p)
    requires p.minNonCompactable <= v <= p.highest
    ensures (exists i: nat :: IsLatest(input, v, x, i)) <==> IsLatest([Entries(done)], v, x, 0)
  {
    var out := [Entries(done)];
    if i: nat :| IsLatest(input, v, x, i) { LatestSurvives(input, iters, done, p, v, x, i); }
    if IsLatest(out, v, x, 0) {
      var i := LatestWasLatest(input, iters, done, p, v, x);
    }
  }

  lemma {:induction false} LatestSurvives(input: Sources, iters: Sources, done: seq<Tagged>, p: Bounds, v: int,
                                          x: Entry, i: nat)
    requires MergeInv(input, iters, done, p) && NothingLeft(iters, p)
    requires p.minNonCompactable <= v <= p.highest && IsLatest(input, v, x, i)
    ensures IsLatest([Entries(done)], v, x, 0)
  {
    var out := [Entries(done)];
    UnshadowedIsChosen(input, iters, done, p, x, i);
    var k :| 0 <= k < |done| && done[k] == Tagged(x, i);
    assert Entries(done)[k] == x;
    forall y, j | InSources(out, y, j) && UKey(y) == UKey(x) && Ver(y) <= v
      ensures Ver(y) < Ver(x) || (Ver(y) == Ver(x) && 0 <= j)
    {
      var m :| 0 <= m < |Entries(done)| && Entries(done)[m] == y;
      assert InSources(input, y, done[m].src);
    }
  }

  lemma {:induction false} LatestWasLatest(input: Sources, iters: Sources, done: seq<Tagged>, p: Bounds, v: int,
                                           x: Entry)
    returns (i: nat)
    requires MergeInv(input, iters, done, p) && NothingLeft(iters, p)
    requires p.minNonCompactable <= v <= p.highest && IsLatest([Entries(done)], v, x, 0)
    ensures IsLatest(input, v, x, i)
  {
    var out := [Entries(done)];
    var k :| 0 <= k < |Entries(done)| && Entries(done)[k] == x;
    i := done[k].src;
    forall y, j | InSources(input, y, j) && UKey(y) == UKey(x) && Ver(y) <= v
      ensures Ver(y) < Ver(x) || (Ver(y) == Ver(x) && i <= j)
    {
      var d := CoveredByDone(input, iters, done, p, y, j);
      var m :| 0 <= m < |done| && done[m] == d;
      assert Entries(done)[m] == d.e && InSources(out, d.e, 0);
      if Ver(d.e) == Ver(x) { DoneUnique(input, done, p, d, done[k]); }
    }
  }

  /** One entry per key. */
  ghost predicate KeysDistinct(done: seq<Tagged>) {
    forall i, j | 0 <= i < j < |done| :: UKey(done[i].e) != UKey(done[j].e)
  }

  /** A finished merge with one entry per key has chosen exactly the newest eligible entries. */
  lemma {:induction false} ChosenAreLatest(input: Sources, iters: Sources, done: seq<Tagged>, p: Bounds, x: Entry,
                                           i: nat)
    requires MergeInv(input, iters, done, p) && NothingLeft(iters, p) && KeysDistinct(done)
    ensures Tagged(x, i) in done <==> IsLatest(input, p.highest, x, i)
  {
    if IsLatest(input, p.highest, x, i) {
      UnshadowedIsChosen(input, iters, done, p, x, i);
    }
    if Tagged(x, i) in done {
      var k :| 0 <= k < |done| && done[k] == Tagged(x, i);
      forall y, j | InSources(input, y, j) && UKey(y) == UKey(x) && Ver(y) <= p.highest
        ensures Ver(y) < Ver(x) || (Ver(y) == Ver(x) && i <= j)
      {
        var d := CoveredByDone(input, iters, done, p, y, j);
        var m :| 0 <= m < |done| && done[m] == d;
        assert k == m;
      }
    }
  }
}
