/**
 mem/memtable.go, mem/batch.go, mem/linked_kvmap.go, arenaskl/arena.go, arenaskl/node.go: writing a
 batch into a memtable of fixed size. A writer first reserves the batch's worst-case size on a
 shared counter, then allocates from a bump arena entry by entry while other writers do the same.
 Every step below is one atomic access. Once a reservation has succeeded, none of its allocations can
 find the arena full, whatever the interleaving, as long as no two writers add the same new key at the
 same time: the one that is beaten has taken a node, a key and a value and then takes a second value,
 which exceeds the entry's worst-case size unless its tower leaves that much unused. All blocks handed
 out are disjoint, aligned, at non-zero offsets, with the untruncated node that is laid over a block
 still inside the buffer.
 */
module Memtable {
  import opened Bytes
  import opened KeyEncoding
  import opened SkiplistLevel

  const LINKS_SIZE: nat := 8
  const MAX_NODE_SIZE: nat := 16 + MAX_HEIGHT * LINKS_SIZE
  const ALIGN1: nat := 0
  const ALIGN8: nat := 7

  /** arenaskl.MaxEntrySize */
  function MaxEntrySize(keySize: nat, valSize: nat): nat { MAX_NODE_SIZE + keySize + valSize + ALIGN8 }

  // ----- the arena

  /** Rounding up to the alignment: clearing the low bits of x + align. */
  function AlignUp(x: nat, align: nat): (r: nat)
    requires align == ALIGN1 || align == ALIGN8
    ensures x <= r <= x + align && r % (align + 1) == 0
  {
    if align == ALIGN1 then x else (x + 7) / 8 * 8
  }

  /** A request to Alloc. */
  datatype Req = Req(size: nat, overflow: nat, align: nat)

  predicate ReqOk(r: Req) { r.align == ALIGN1 || r.align == ALIGN8 }

  /** What the request takes from the arena, and what it must find there. */
  function Padded(r: Req): nat { r.size + r.align }

  datatype Block = Block(offset: nat, req: Req)

  class Arena {
    var n: nat
    const cap: nat

    constructor (cap: nat)
      ensures n == 1 && this.cap == cap
    {
      n, this.cap := 1, cap;
    }

    /** Alloc with no other goroutine in between its two accesses to n. */
    method Alloc(r: Req) returns (offset: Option<nat>)
      requires ReqOk(r)
      modifies this
      ensures offset.Some? <==> old(n) <= cap && old(n) + Padded(r) + r.overflow <= cap
      ensures n == if old(n) <= cap then old(n) + Padded(r) else old(n)
      ensures offset.Some? ==> old(n) <= offset.value && offset.value % (r.align + 1) == 0
                               && offset.value + r.size <= n && offset.value + r.size + r.overflow <= cap
    {
      var origSize := n;
      if origSize > cap { return None; }
      var padded := r.size + r.align;
      n := n + padded;
      if n + r.overflow > cap { return None; }
      return Some(AlignUp(n - padded, r.align));
    }
  }

  /** newNode: a tower truncated to its height; the rest of a full node must still fit behind it. */
  function NodeReq(height: nat): (r: Req)
    requires 1 <= height <= MAX_HEIGHT
    ensures ReqOk(r) && r.size + r.overflow == MAX_NODE_SIZE
  {
    Req(MAX_NODE_SIZE - (MAX_HEIGHT - height) * LINKS_SIZE, (MAX_HEIGHT - height) * LINKS_SIZE, ALIGN8)
  }

  function BytesReq(size: nat): Req { Req(size, 0, ALIGN1) }

  // ----- batches

  datatype Entry = Entry(key: Bytes, value: Bytes)

  function EntrySize(e: Entry): nat { MaxEntrySize(|e.key|, |e.value|) }

  function EntriesSize(es: seq<Entry>): nat {
    if es == [] then 0 else EntriesSize(es[..|es| - 1]) + EntrySize(es[|es| - 1])
  }

  lemma {:induction false} EntriesSizeUpdate(es: seq<Entry>, i: nat, e: Entry)
    requires i < |es|
    ensures EntriesSize(es[i := e]) == EntriesSize(es) - EntrySize(es[i]) + EntrySize(e)
  {
    var n := |es| - 1;
    if i < n {
      EntriesSizeUpdate(es[..n], i, e);
      assert es[i := e][..n] == es[..n][i := e];
    } else {
      assert es[i := e][..n] == es[..n];
    }
  }

  /** A map that keeps, in order of first put, the last entry put for each unversioned key. */
  class LinkedKVMap {
    var entries: seq<Entry>
    var m: map<Bytes, nat>

    ghost predicate Valid()
      reads this
    {
      && (forall e | e in entries :: |e.key| >= 8)
      && (forall k | k in m :: m[k] < |entries| && KeyNoVersion(entries[m[k]]) == k)
      && (forall i | 0 <= i < |entries| :: KeyNoVersion(entries[i]) in m && m[KeyNoVersion(entries[i])] == i)
    }

    static function KeyNoVersion(e: Entry): Bytes { if |e.key| >= 8 then e.key[..|e.key| - 8] else [] }

    constructor ()
      ensures Valid() && entries == []
    {
      entries, m := [], map[];
    }

    method Put(e: Entry)
      requires Valid() && |e.key| >= 8
      modifies this
      ensures Valid()
      ensures KeyNoVersion(e) !in old(m) ==> entries == old(entries) + [e]
      ensures KeyNoVersion(e) in old(m) ==> entries == old(entries)[old(m)[KeyNoVersion(e)] := e]
    {
      var k := e.key[..|e.key| - 8];
      if k in m {
        entries := entries[m[k] := e];
        return;
      }
      m := m[k := |entries|];
      entries := entries + [e];
    }

    /** The value last put for an unversioned key, if any. */
    method Get(key: Bytes) returns (value: Option<Bytes>)
      requires Valid()
      ensures value.Some? <==> exists i | 0 <= i < |entries| :: KeyNoVersion(entries[i]) == key
      ensures value.Some? ==>
                exists i | 0 <= i < |entries| :: KeyNoVersion(entries[i]) == key && entries[i].value == value.value
    {
      if key in m {
        assert KeyNoVersion(entries[m[key]]) == key;
        return Some(entries[m[key]].value);
      }
      return None;
    }
  }

  class Batch {
    const maxSize: int
    var memTableBytes: nat
    const m: LinkedKVMap

    /** The reservation covers the worst case of all entries that will be written. */
    ghost predicate Valid()
      reads this, m
    {
      m.Valid() && EntriesSize(m.entries) <= memTableBytes && memTableBytes <= if maxSize < 0 then 0 else maxSize
    }

    constructor (maxSize: int)
      ensures Valid() && fresh(m) && m.entries == [] && this.maxSize == maxSize
    {
      this.maxSize, memTableBytes := maxSize, 0;
      m := new LinkedKVMap();
    }

    method AddEntry(e: Entry) returns (ok: bool)
      requires Valid() && |e.key| >= 8
      modifies this, m
      ensures Valid()
      ensures ok <==> old(memTableBytes) + EntrySize(e) <= maxSize
      ensures !ok ==> m.entries == old(m.entries) && memTableBytes == old(memTableBytes)
      ensures ok ==> e in m.entries && memTableBytes == old(memTableBytes) + EntrySize(e)
    {
      var diff := EntrySize(e);
      if memTableBytes + diff > maxSize { return false; }
      ghost var was := m.entries;
      m.Put(e);
      if LinkedKVMap.KeyNoVersion(e) in old(m.m) {
        var i := old(m.m)[LinkedKVMap.KeyNoVersion(e)];
        EntriesSizeUpdate(was, i, e);
        assert m.entries[i] == e;
      } else {
        assert m.entries[..|was|] == was;
        assert m.entries[|was|] == e;
      }
      memTableBytes := memTableBytes + diff;
      return true;
    }
  }

  // ----- concurrent writers

  /** What the head and tail nodes of an empty skiplist take: MemtableSizeOverhead. */
  const OVERHEAD: nat := 1 + 2 * (MAX_NODE_SIZE + ALIGN8)

  lemma {:induction false} OverheadIsTwoNodes()
    ensures OVERHEAD == 1 + Padded(NodeReq(MAX_HEIGHT)) + Padded(NodeReq(MAX_HEIGHT)) == 367
  {
  }

  /** Where a goroutine is in Memtable.Write. */
  datatype Writer =
    | Reserved(size: nat, entries: seq<Entry>, got: int)
    | Refusing(size: nat)
    | Refused
    | Writing(size: nat, entries: seq<Entry>, reqs: seq<Req>, loaded: bool, spent: nat)
    | Written(size: nat, spent: nat)
    | Full(size: nat, spent: nat)

  /** How an entry goes in: as a new key, as a key that is there, or as a new key that another writer adds first. */
  datatype Way = AsNew(height: nat) | AsUpdate | Beaten(height: nat)

  predicate WayOk(way: Way) { way.AsUpdate? || 1 <= way.height <= MAX_HEIGHT }

  datatype State = State(reserved: int, n: nat, writers: seq<Writer>, blocks: seq<Block>)

  datatype Event =
    | Reserve(size: nat, entries: seq<Entry>)
    | Decide(w: nat)
    | GiveBack(w: nat)
    | StartEntry(w: nat, way: Way)
    | Load(w: nat)
    | Take(w: nat)
    | Finish(w: nat)

  ghost predicate Enabled(s: State, e: Event) {
    match e
    case Reserve(size, entries) => EntriesSize(entries) <= size
    case Decide(w) => w < |s.writers| && s.writers[w].Reserved?
    case GiveBack(w) => w < |s.writers| && s.writers[w].Refusing?
    case StartEntry(w, way) =>
      w < |s.writers| && s.writers[w].Writing? && s.writers[w].reqs == [] && s.writers[w].entries != [] && WayOk(way)
    case Load(w) => w < |s.writers| && s.writers[w].Writing? && s.writers[w].reqs != [] && !s.writers[w].loaded
    case Take(w) =>
      w < |s.writers| && s.writers[w].Writing? && s.writers[w].reqs != [] && s.writers[w].loaded
        && ReqOk(s.writers[w].reqs[0])
    case Finish(w) => w < |s.writers| && s.writers[w].Writing? && s.writers[w].reqs == [] && s.writers[w].entries == []
  }

  /**
   An entry with a new key takes a node, its key and its value; one whose key is there, a value. A beaten
   entry takes what a new one takes and then, as the key is there now, a value.
   */
  function EntryReqs(e: Entry, way: Way): seq<Req>
    requires WayOk(way)
  {
    (if way.AsUpdate? then [] else [NodeReq(way.height), BytesReq(|e.key|), BytesReq(|e.value|)])
    + (if way.AsNew? then [] else [BytesReq(|e.value|)])
  }

  /** The second value of a beaten entry has room in what its tower leaves unused. */
  predicate Within(e: Entry, way: Way) { way.Beaten? ==> |e.value| <= (MAX_HEIGHT - way.height) * LINKS_SIZE }

  ghost function Step(s: State, e: Event, cap: nat): State
    requires Enabled(s, e)
  {
    match e
    case Reserve(size, entries) =>
      s.(reserved := s.reserved + size, writers := s.writers + [Reserved(size, entries, s.reserved + size)])
    case Decide(w) =>
      var x := s.writers[w];
      Put(s, w, if x.got > cap then Refusing(x.size) else Writing(x.size, x.entries, [], false, 0))
    case GiveBack(w) => Put(s, w, Refused).(reserved := s.reserved - s.writers[w].size)
    case StartEntry(w, way) =>
      var x := s.writers[w];
      Put(s, w, x.(entries := x.entries[1..], reqs := EntryReqs(x.entries[0], way)))
    case Load(w) =>
      var x := s.writers[w];
      Put(s, w, if s.n > cap then Full(x.size, x.spent) else x.(loaded := true))
    case Take(w) =>
      var x := s.writers[w];
      var r := x.reqs[0];
      var n := s.n + Padded(r);
      if n + r.overflow > cap then Put(s, w, Full(x.size, x.spent + Padded(r))).(n := n)
      else
        Put(s, w, x.(reqs := x.reqs[1..], loaded := false, spent := x.spent + Padded(r)))
        .(n := n, blocks := s.blocks + [Block(AlignUp(s.n, r.align), r)])
    case Finish(w) => Put(s, w, Written(s.writers[w].size, s.writers[w].spent))
  }

  function Put(s: State, w: nat, x: Writer): State
    requires w < |s.writers|
  {
    s.(writers := s.writers[w := x])
  }

  // ----- sums over writers

  ghost function Sum(ws: seq<Writer>, f: Writer -> nat): nat {
    if ws == [] then 0 else Sum(ws[..|ws| - 1], f) + f(ws[|ws| - 1])
  }

  lemma {:induction false} SumPut(ws: seq<Writer>, f: Writer -> nat, w: nat, x: Writer)
    requires w < |ws|
    ensures Sum(ws[w := x], f) == Sum(ws, f) - f(ws[w]) + f(x)
  {
    var n := |ws| - 1;
    if w < n {
      SumPut(ws[..n], f, w, x);
      assert ws[w := x][..n] == ws[..n][w := x];
    } else {
      assert ws[w := x][..n] == ws[..n];
    }
  }

  lemma {:induction false} SumAdd(ws: seq<Writer>, f: Writer -> nat, x: Writer)
    ensures Sum(ws + [x], f) == Sum(ws, f) + f(x)
  {
    assert (ws + [x])[..|ws|] == ws;
  }

  /** If f is below g everywhere, the total slack is at least the slack at one place. */
  lemma {:induction false} SumSlack(ws: seq<Writer>, f: Writer -> nat, g: Writer -> nat, w: nat)
    requires forall x | x in ws :: f(x) <= g(x)
    requires w < |ws|
    ensures Sum(ws, f) + g(ws[w]) <= Sum(ws, g) + f(ws[w])
  {
    var n := |ws| - 1;
    assert ws[n] in ws && forall x | x in ws[..n] :: x in ws;
    if w < n { SumSlack(ws[..n], f, g, w); }
    else if n > 0 { SumSlack(ws[..n], f, g, 0); assert ws[0] in ws; }
  }

  lemma {:induction false} SumBelow(ws: seq<Writer>, f: Writer -> nat, g: Writer -> nat)
    requires forall x | x in ws :: f(x) <= g(x)
    ensures Sum(ws, f) <= Sum(ws, g)
  {
    if ws != [] {
      assert ws[0] in ws;
      SumSlack(ws, f, g, 0);
    }
  }

  /** What a writer holds on the shared counter. */
  function Held(x: Writer): nat { if x.Refused? then 0 else x.size }

  /** What a writer whose reservation fits may spend. */
  function Claim(cap: nat): Writer -> nat {
    (x: Writer) => if x.Refused? || x.Refusing? || (x.Reserved? && x.got > cap) then 0 else x.size
  }

  function Spent(x: Writer): nat { if x.Writing? || x.Written? || x.Full? then x.spent else 0 }

  /** The most that is needed while the requests are met one after the other. */
  function Need(reqs: seq<Req>): nat {
    if reqs == [] then 0
    else Padded(reqs[0]) + var rest := Need(reqs[1..]); if rest > reqs[0].overflow then rest else reqs[0].overflow
  }

  // ----- the invariant

  ghost predicate WriterOk(x: Writer) {
    match x
    case Reserved(size, entries, got) => EntriesSize(entries) <= size
    case Writing(size, entries, reqs, loaded, spent) =>
      spent + EntriesSize(entries) + Need(reqs) <= size && forall r | r in reqs :: ReqOk(r)
    case Written(size, spent) => spent <= size
    case Full(_, _) => false
    case _ => true
  }

  ghost predicate BlockOk(b: Block, n: nat, cap: nat) {
    && 1 <= b.offset && b.offset % (b.req.align + 1) == 0
    && b.offset + b.req.size <= n && b.offset + b.req.size + b.req.overflow <= cap
  }

  ghost predicate Disjoint(a: Block, b: Block) { a.offset + a.req.size <= b.offset }

  ghost predicate BlocksOk(blocks: seq<Block>, n: nat, cap: nat) {
    && (forall i | 0 <= i < |blocks| :: BlockOk(blocks[i], n, cap))
    && (forall i, k | 0 <= i < k < |blocks| :: Disjoint(blocks[i], blocks[k]))
  }

  /** The counter, the arena and its blocks, whatever the writers spend. */
  ghost predicate Accounts(s: State, cap: nat) {
    && s.reserved == OVERHEAD + Sum(s.writers, Held)
    && OVERHEAD + Sum(s.writers, Claim(cap)) <= cap
    && s.n == OVERHEAD + Sum(s.writers, Spent)
    && BlocksOk(s.blocks, s.n, cap)
  }

  ghost predicate Inv(s: State, cap: nat) { Accounts(s, cap) && forall x | x in s.writers :: WriterOk(x) }

  lemma {:induction false} EntriesSizeFirst(es: seq<Entry>)
    requires es != []
    ensures EntriesSize(es) == EntrySize(es[0]) + EntriesSize(es[1..])
  {
    var n := |es| - 1;
    if n > 0 {
      EntriesSizeFirst(es[..n]);
      assert es[..n][1..] == es[1..][..n - 1];
    } else {
      assert es[..n] == [] && es[1..] == [];
    }
  }

  /** An entry's requests need no more than its worst-case size, but for a beaten entry that is not within it. */
  lemma {:induction false} EntryReqsFit(e: Entry, way: Way)
    requires WayOk(way)
    ensures Need(EntryReqs(e, way)) <= EntrySize(e) <==> Within(e, way)
    ensures forall r | r in EntryReqs(e, way) :: ReqOk(r)
  {
    var b, c := BytesReq(|e.key|), BytesReq(|e.value|);
    NeedOfBytes([c]);
    NeedOfBytes([b, c]);
    NeedOfBytes([b, c, c]);
    hide Need;
    if way.AsUpdate? {
      assert EntryReqs(e, way) == [c];
    } else {
      var rest := if way.AsNew? then [b, c] else [b, c, c];
      assert EntryReqs(e, way) == [NodeReq(way.height)] + rest;
      NeedOfNode(way.height, rest);
    }
  }

  function Sizes(reqs: seq<Req>): nat { if reqs == [] then 0 else reqs[0].size + Sizes(reqs[1..]) }

  /** Requests for bytes need what they take. */
  lemma {:induction false} NeedOfBytes(reqs: seq<Req>)
    requires forall r | r in reqs :: r == BytesReq(r.size)
    ensures Need(reqs) == Sizes(reqs)
    ensures |reqs| == 1 ==> Sizes(reqs) == reqs[0].size
    ensures |reqs| == 2 ==> Sizes(reqs) == reqs[0].size + reqs[1].size
    ensures |reqs| == 3 ==> Sizes(reqs) == reqs[0].size + reqs[1].size + reqs[2].size
  {
    if reqs != [] { NeedOfBytes(reqs[1..]); }
  }

  lemma {:induction false} NeedOfNode(height: nat, rest: seq<Req>)
    requires 1 <= height <= MAX_HEIGHT
    ensures var unused := (MAX_HEIGHT - height) * LINKS_SIZE;
            Need([NodeReq(height)] + rest)
            == MAX_NODE_SIZE + ALIGN8 - unused + if Need(rest) > unused then Need(rest) else unused
  {
    assert ([NodeReq(height)] + rest)[1..] == rest;
  }

  lemma {:induction false} SpentWithinClaim(x: Writer, cap: nat)
    ensures Claim(cap)(x) <= Held(x) && (WriterOk(x) ==> Spent(x) <= Claim(cap)(x))
  {
  }

  /** The arithmetic at the heart of it: what a request needs is there. */
  lemma {:induction false} RoomForRequest(s: State, cap: nat, w: nat)
    requires Inv(s, cap) && w < |s.writers| && s.writers[w].Writing? && s.writers[w].reqs != []
    ensures s.n + Padded(s.writers[w].reqs[0]) + s.writers[w].reqs[0].overflow <= cap && s.n <= cap
  {
    hide Sum, BlocksOk;
    var x := s.writers[w];
    assert x in s.writers;
    forall y | y in s.writers ensures Spent(y) <= Claim(cap)(y) { SpentWithinClaim(y, cap); }
    SumSlack(s.writers, Spent, Claim(cap), w);
    SumBelow(s.writers, Spent, Claim(cap));
  }

  lemma {:induction false} PutKeepsAccounts(s: State, cap: nat, w: nat, x: Writer)
    requires Accounts(s, cap) && w < |s.writers|
    requires Held(x) == Held(s.writers[w]) && Claim(cap)(x) == Claim(cap)(s.writers[w])
    requires Spent(x) == Spent(s.writers[w])
    ensures Accounts(Put(s, w, x), cap)
  {
    hide Sum, BlocksOk;
    SumPut(s.writers, Held, w, x);
    SumPut(s.writers, Claim(cap), w, x);
    SumPut(s.writers, Spent, w, x);
  }

  lemma {:induction false} ReserveKeepsAccounts(s: State, cap: nat, size: nat, entries: seq<Entry>)
    requires Accounts(s, cap) && EntriesSize(entries) <= size
    ensures Accounts(Step(s, Reserve(size, entries), cap), cap)
  {
    hide Sum, BlocksOk;
    var x := Reserved(size, entries, s.reserved + size);
    SumAdd(s.writers, Held, x);
    SumAdd(s.writers, Claim(cap), x);
    SumAdd(s.writers, Spent, x);
    SumBelow(s.writers, Claim(cap), Held);
  }

  lemma {:induction false} GiveBackKeepsAccounts(s: State, cap: nat, w: nat)
    requires Accounts(s, cap) && w < |s.writers| && s.writers[w].Refusing?
    ensures Accounts(Step(s, GiveBack(w), cap), cap)
  {
    hide Sum, BlocksOk;
    SumPut(s.writers, Held, w, Refused);
    SumPut(s.writers, Claim(cap), w, Refused);
    SumPut(s.writers, Spent, w, Refused);
  }

  lemma {:induction false} TakeKeepsAccounts(s: State, cap: nat, w: nat)
    requires Accounts(s, cap) && Enabled(s, Take(w))
    ensures Accounts(Step(s, Take(w), cap), cap)
  {
    hide Sum, BlocksOk;
    var x := s.writers[w];
    var r := x.reqs[0];
    var x' := Step(s, Take(w), cap).writers[w];
    assert Held(x') == Held(x) && Claim(cap)(x') == Claim(cap)(x) && Spent(x') == Spent(x) + Padded(r);
    SumPut(s.writers, Held, w, x');
    SumPut(s.writers, Claim(cap), w, x');
    SumPut(s.writers, Spent, w, x');
    if s.n + Padded(r) + r.overflow <= cap { BlockAdded(s.blocks, s.n, cap, r); }
    else { BlocksStay(s.blocks, s.n, s.n + Padded(r), cap); }
  }

  lemma {:induction false} BlocksStay(blocks: seq<Block>, n: nat, n': nat, cap: nat)
    requires BlocksOk(blocks, n, cap) && n <= n'
    ensures BlocksOk(blocks, n', cap)
  {
    forall i | 0 <= i < |blocks| ensures BlockOk(blocks[i], n', cap) { assert BlockOk(blocks[i], n, cap); }
  }

  lemma {:induction false} BlockAdded(blocks: seq<Block>, n: nat, cap: nat, r: Req)
    requires BlocksOk(blocks, n, cap) && ReqOk(r) && n >= 1 && n + Padded(r) + r.overflow <= cap
    ensures BlocksOk(blocks + [Block(AlignUp(n, r.align), r)], n + Padded(r), cap)
  {
    hide AlignUp;
    var b := Block(AlignUp(n, r.align), r);
    assert n <= b.offset <= n + r.align;
    forall i | 0 <= i < |blocks| ensures Disjoint(blocks[i], b) { assert BlockOk(blocks[i], n, cap); }
  }

  /** No entry that is beaten exceeds its worst-case size. */
  ghost predicate StaysWithin(s: State, e: Event)
    requires Enabled(s, e)
  {
    e.StartEntry? ==> Within(s.writers[e.w].entries[0], e.way)
  }

  lemma {:induction false} StepKeepsAccounts(s: State, e: Event, cap: nat)
    requires Accounts(s, cap) && Enabled(s, e)
    ensures Accounts(Step(s, e, cap), cap)
  {
    hide Sum, BlocksOk, EntryReqs;
    match e
    case Reserve(size, entries) => ReserveKeepsAccounts(s, cap, size, entries);
    case GiveBack(w) => GiveBackKeepsAccounts(s, cap, w);
    case Take(w) => TakeKeepsAccounts(s, cap, w);
    case Decide(w) => PutKeepsAccounts(s, cap, w, Step(s, e, cap).writers[w]);
    case StartEntry(w, _) => PutKeepsAccounts(s, cap, w, Step(s, e, cap).writers[w]);
    case Load(w) => PutKeepsAccounts(s, cap, w, Step(s, e, cap).writers[w]);
    case Finish(w) => PutKeepsAccounts(s, cap, w, Step(s, e, cap).writers[w]);
  }

  lemma {:induction false} StepKeepsInv(s: State, e: Event, cap: nat)
    requires Inv(s, cap) && Enabled(s, e) && StaysWithin(s, e)
    ensures Inv(Step(s, e, cap), cap)
  {
    hide Accounts;
    StepKeepsAccounts(s, e, cap);
    if e.StartEntry? {
      var x := s.writers[e.w];
      assert x in s.writers;
      EntriesSizeFirst(x.entries);
      EntryReqsFit(x.entries[0], e.way);
    } else if !e.Reserve? {
      assert s.writers[e.w] in s.writers;
      if e.Load? || e.Take? { RoomForRequest(s, cap, e.w); }
    }
    hide EntryReqs, Within;
    var w := if e.Reserve? then |s.writers| else e.w;
    assert WriterOk(Step(s, e, cap).writers[w]);
  }

  // ----- runs

  function Start(): State { State(OVERHEAD, OVERHEAD, [], []) }

  ghost predicate IsPath(states: seq<State>, events: seq<Event>, cap: nat) {
    && |states| == |events| + 1
    && forall i | 0 <= i < |events| :: Enabled(states[i], events[i]) && states[i + 1] == Step(states[i], events[i], cap)
  }

  ghost predicate IsRun(states: seq<State>, events: seq<Event>, cap: nat) {
    IsPath(states, events, cap) && states[0] == Start()
  }

  /** In no step of the run is an entry beaten that then exceeds its worst-case size. */
  ghost predicate RacesFit(states: seq<State>, events: seq<Event>, cap: nat)
    requires IsRun(states, events, cap)
  {
    forall i | 0 <= i < |events| :: StaysWithin(states[i], events[i])
  }

  lemma {:induction false} RunKeepsAccounts(states: seq<State>, events: seq<Event>, cap: nat, k: nat)
    requires IsRun(states, events, cap) && k < |states| && OVERHEAD <= cap
    ensures Accounts(states[k], cap)
  {
    hide Accounts, Step, Enabled;
    if k == 0 {
      StartInv(cap);
    } else {
      RunKeepsAccounts(states, events, cap, k - 1);
      StepKeepsAccounts(states[k - 1], events[k - 1], cap);
    }
  }

  lemma {:induction false} RunKeepsInv(states: seq<State>, events: seq<Event>, cap: nat, k: nat)
    requires IsRun(states, events, cap) && RacesFit(states, events, cap) && k < |states| && OVERHEAD <= cap
    ensures Inv(states[k], cap)
  {
    hide Inv, Step, Enabled, StaysWithin;
    if k == 0 {
      StartInv(cap);
    } else {
      RunKeepsInv(states, events, cap, k - 1);
      StepKeepsInv(states[k - 1], events[k - 1], cap);
    }
  }

  lemma {:induction false} StartInv(cap: nat)
    requires OVERHEAD <= cap
    ensures Inv(Start(), cap) && Accounts(Start(), cap)
  {
  }

  /** In no interleaving in which races fit does a write that got its reservation find the arena full. */
  lemma {:induction false} ReservedWritesFit(states: seq<State>, events: seq<Event>, cap: nat, k: nat, w: nat)
    requires IsRun(states, events, cap) && RacesFit(states, events, cap) && OVERHEAD <= cap
    requires k < |states| && w < |states[k].writers|
    ensures !states[k].writers[w].Full? && OVERHEAD <= states[k].n <= cap
  {
    hide IsRun, RacesFit, Sum, BlocksOk;
    RunKeepsInv(states, events, cap, k);
    var s := states[k];
    assert s.writers[w] in s.writers;
    forall y | y in s.writers ensures Spent(y) <= Claim(cap)(y) { SpentWithinClaim(y, cap); }
    SumBelow(s.writers, Spent, Claim(cap));
  }

  /**
   Every block handed out is aligned, not at offset 0, inside the buffer with its overlay, and
   before any later one.
   */
  lemma {:induction false} BlocksNeverOverlap(states: seq<State>, events: seq<Event>, cap: nat, k: nat, i: nat)
    requires IsRun(states, events, cap) && k < |states| && OVERHEAD <= cap && i < |states[k].blocks|
    ensures BlockOk(states[k].blocks[i], states[k].n, cap)
    ensures forall j | i < j < |states[k].blocks| :: Disjoint(states[k].blocks[i], states[k].blocks[j])
  {
    hide IsRun, Sum;
    RunKeepsAccounts(states, events, cap, k);
  }

  /** A refusal gives back all it took: when nobody is in between, the counter is the accepted total. */
  lemma {:induction false} RefusalsLeaveNoTrace(states: seq<State>, events: seq<Event>, cap: nat, k: nat)
    requires IsRun(states, events, cap) && k < |states| && OVERHEAD <= cap
    requires forall x | x in states[k].writers :: !x.Reserved? && !x.Refusing?
    ensures states[k].reserved == OVERHEAD + Sum(states[k].writers, Claim(cap)) <= cap
  {
    hide IsRun, BlocksOk;
    RunKeepsAccounts(states, events, cap, k);
    SumSame(states[k].writers, Held, Claim(cap));
  }

  lemma {:induction false} SumSame(ws: seq<Writer>, f: Writer -> nat, g: Writer -> nat)
    requires forall x | x in ws :: f(x) == g(x)
    ensures Sum(ws, f) == Sum(ws, g)
  {
    SumBelow(ws, f, g);
    SumBelow(ws, g, f);
  }

  // ----- a race that does not fit

  lemma {:induction false} JoinPaths(states: seq<State>, events: seq<Event>, more: seq<State>, after: seq<Event>,
                                     cap: nat)
    requires IsPath(states, events, cap) && IsPath(more, after, cap) && states[|events|] == more[0]
    ensures IsPath(states + more[1..], events + after, cap)
  {
    hide Enabled, Step;
    var all, es := states + more[1..], events + after;
    forall i | 0 <= i < |es| ensures Enabled(all[i], es[i]) && all[i + 1] == Step(all[i], es[i], cap) {
      if i >= |events| {
        var j := i - |events|;
        assert all[i] == more[j] && all[i + 1] == more[j + 1] && es[i] == after[j];
      }
    }
  }

  lemma {:induction false} AddStep(states: seq<State>, events: seq<Event>, e: Event, cap: nat)
    requires IsPath(states, events, cap) && Enabled(states[|events|], e)
    ensures IsPath(states + [Step(states[|events|], e, cap)], events + [e], cap)
  {
    var more := [states[|events|], Step(states[|events|], e, cap)];
    JoinPaths(states, events, more, [e], cap);
    assert more[1..] == [Step(states[|events|], e, cap)];
  }

  /** What requests take. */
  function Taken(reqs: seq<Req>): nat { if reqs == [] then 0 else Padded(reqs[0]) + Taken(reqs[1..]) }

  lemma {:induction false} MeetFirst(s: State, w: nat, cap: nat) returns (states: seq<State>, events: seq<Event>)
    requires w < |s.writers| && s.writers[w].Writing? && !s.writers[w].loaded && s.n <= cap
    requires s.writers[w].reqs != [] && ReqOk(s.writers[w].reqs[0])
    ensures IsPath(states, events, cap) && |events| == 2 && states[0] == s
    ensures var (x, end) := (s.writers[w], states[2]);
            var r := x.reqs[0];
            if s.n + Padded(r) + r.overflow <= cap
            then && end.n == s.n + Padded(r)
                 && end.writers == s.writers[w := x.(reqs := x.reqs[1..], spent := x.spent + Padded(r))]
            else |end.writers| == |s.writers| && end.writers[w].Full?
  {
    var x := s.writers[w];
    var s1 := Step(s, Load(w), cap);
    assert s1.writers[w] == x.(loaded := true) && s1.n == s.n;
    var s2 := Step(s1, Take(w), cap);
    assert s2.n == s.n + Padded(x.reqs[0]);
    var x2 := s2.writers[w];
    assert s2.writers == s.writers[w := x2];
    hide Step, Enabled;
    states, events := [s, s1, s2], [Load(w), Take(w)];
  }

  /** Writer w alone meets its requests, or finds the arena full if they need more than is there. */
  lemma {:induction false} MeetAll(s: State, w: nat, cap: nat) returns (states: seq<State>, events: seq<Event>)
    requires w < |s.writers| && s.writers[w].Writing? && !s.writers[w].loaded && s.n <= cap
    requires forall r | r in s.writers[w].reqs :: ReqOk(r)
    ensures IsPath(states, events, cap) && states[0] == s
    ensures var (x, end) := (s.writers[w], states[|events|]);
            if s.n + Need(x.reqs) <= cap
            then && end.n == s.n + Taken(x.reqs)
                 && end.writers == s.writers[w := x.(reqs := [], spent := x.spent + Taken(x.reqs))]
            else |end.writers| == |s.writers| && end.writers[w].Full?
    decreases |s.writers[w].reqs|
  {
    var x := s.writers[w];
    hide Step, Enabled;
    states, events := [s], [];
    if x.reqs != [] {
      states, events := MeetFirst(s, w, cap);
      var s2 := states[2];
      if s2.writers[w].Writing? {
        var more, after := MeetAll(s2, w, cap);
        JoinPaths(states, events, more, after, cap);
        states, events := states + more[1..], events + after;
        assert states[|events|] == more[|after|];
      }
    }
  }

  lemma {:induction false} TakenByTallest(e: Entry)
    ensures Taken(EntryReqs(e, AsNew(MAX_HEIGHT))) == EntrySize(e)
  {
    var a, b, c := NodeReq(MAX_HEIGHT), BytesReq(|e.key|), BytesReq(|e.value|);
    assert EntryReqs(e, AsNew(MAX_HEIGHT)) == [a, b, c];
    assert [a, b, c][1..] == [b, c] && [b, c][1..] == [c] && [c][1..] == [];
    assert Taken([c]) == |e.value| && Taken([b, c]) == |e.key| + |e.value|;
  }

  /** Two writers reserve for the entry, in an arena that holds just that. */
  lemma {:induction false} BothReserve(e: Entry) returns (states: seq<State>, events: seq<Event>)
    ensures var size := EntrySize(e);
            var x := Writing(size, [e], [], false, 0);
            && IsRun(states, events, OVERHEAD + 2 * size)
            && states[|events|] == State(OVERHEAD + 2 * size, OVERHEAD, [x, x], [])
  {
    var size := EntrySize(e);
    var cap := OVERHEAD + 2 * size;
    assert EntriesSize([e]) == size by { EntriesSizeFirst([e]); }
    var s0 := Start();
    var s1 := Step(s0, Reserve(size, [e]), cap);
    var s2 := Step(s1, Reserve(size, [e]), cap);
    var s3 := Step(s2, Decide(0), cap);
    var s4 := Step(s3, Decide(1), cap);
    states, events := [s0, s1, s2, s3, s4], [Reserve(size, [e]), Reserve(size, [e]), Decide(0), Decide(1)];
    assert s4.writers == [s4.writers[0], s4.writers[1]];
  }

  /** Of two writers of the same new entry, both with their reservation, the one that is beaten finds the arena full. */
  lemma {:induction false} BeatenFindsArenaFull(e: Entry, height: nat)
    returns (states: seq<State>, events: seq<Event>, cap: nat)
    requires 1 <= height <= MAX_HEIGHT && !Within(e, Beaten(height))
    ensures IsRun(states, events, cap) && OVERHEAD <= cap
    ensures var end := states[|events|]; |end.writers| == 2 && end.writers[1].Full?
  {
    hide Taken, Need, EntryReqs, IsPath;
    cap := OVERHEAD + 2 * EntrySize(e);
    states, events := BothReserve(e);
    var first, race := StartEntry(0, AsNew(MAX_HEIGHT)), StartEntry(1, Beaten(height));
    EntryReqsFit(e, first.way);
    EntryReqsFit(e, race.way);
    TakenByTallest(e);
    states, events := StartAndMeet(states, events, first, cap);
    states, events := StartAndMeet(states, events, race, cap);
  }

  lemma {:induction false} StartAndMeet(states: seq<State>, events: seq<Event>, e: Event, cap: nat)
    returns (states': seq<State>, events': seq<Event>)
    requires IsRun(states, events, cap) && e.StartEntry? && Enabled(states[|events|], e)
    requires var s := states[|events|]; s.n <= cap && !s.writers[e.w].loaded
    ensures IsRun(states', events', cap)
    ensures var (s, end) := (states[|events|], states'[|events'|]);
            var x := s.writers[e.w];
            var reqs := EntryReqs(x.entries[0], e.way);
            if s.n + Need(reqs) <= cap
            then && end.n == s.n + Taken(reqs)
                 && end.writers == s.writers[e.w := x.(entries := x.entries[1..], spent := x.spent + Taken(reqs))]
            else |end.writers| == |s.writers| && end.writers[e.w].Full?
  {
    var s := states[|events|];
    var s1 := Step(s, e, cap);
    EntryReqsFit(s.writers[e.w].entries[0], e.way);
    AddStep(states, events, e, cap);
    var more, after := MeetAll(s1, e.w, cap);
    hide Taken, Need, EntryReqs, Within, Enabled;
    JoinPaths(states + [s1], events + [e], more, after, cap);
    states', events' := states + [s1] + more[1..], events + [e] + after;
    assert states'[|events'|] == more[|after|];
  }

  // ----- what a write does

  /** Where a writer can be that reserved this size and then read this count. */
  ghost predicate DecidedBy(x: Writer, size: nat, got: int, cap: nat) {
    match x
    case Reserved(n, _, g) => n == size && g == got
    case Refusing(n) => n == size && got > cap
    case Refused => got > cap
    case Writing(n, _, _, _, _) => n == size && got <= cap
    case Written(n, _) => n == size && got <= cap
    case Full(n, _) => n == size && got <= cap
  }

  lemma {:induction false} StepDecides(s: State, e: Event, cap: nat, w: nat, size: nat, got: int)
    requires Enabled(s, e) && w < |s.writers| && DecidedBy(s.writers[w], size, got, cap)
    ensures var s' := Step(s, e, cap); w < |s'.writers| && DecidedBy(s'.writers[w], size, got, cap)
  {
    hide EntryReqs, Padded, AlignUp;
  }

  /** In every interleaving a write is let in if and only if its size and all that is held then fit the capacity. */
  lemma {:induction false} GrantedIff(states: seq<State>, events: seq<Event>, cap: nat, i: nat, k: nat)
    requires IsRun(states, events, cap) && OVERHEAD <= cap && i < k < |states| && events[i].Reserve?
    ensures var w := |states[i].writers|;
            var got := OVERHEAD + Sum(states[i].writers, Held) + events[i].size;
            w < |states[k].writers| && DecidedBy(states[k].writers[w], events[i].size, got, cap)
  {
    hide Accounts, Step, Enabled, DecidedBy, Sum;
    if k == i + 1 {
      RunKeepsAccounts(states, events, cap, i);
      FirstCount(states[i], events[i], cap);
    } else {
      GrantedIff(states, events, cap, i, k - 1);
      var w, got := |states[i].writers|, OVERHEAD + Sum(states[i].writers, Held) + events[i].size;
      StepDecides(states[k - 1], events[k - 1], cap, w, events[i].size, got);
    }
  }

  lemma {:induction false} FirstCount(s: State, e: Event, cap: nat)
    requires Accounts(s, cap) && Enabled(s, e) && e.Reserve?
    ensures var s', w := Step(s, e, cap), |s.writers|;
            |s'.writers| == w + 1 && s'.writers[w].Reserved? && s'.writers[w].entries == e.entries
            && DecidedBy(s'.writers[w], e.size, OVERHEAD + Sum(s.writers, Held) + e.size, cap)
  {
    hide BlocksOk;
  }

  /** The ways in which writer w has started entries since event i. */
  ghost function WaysBy(events: seq<Event>, i: nat, k: nat, w: nat): seq<Way>
    requires k <= |events|
  {
    if k <= i then []
    else
      WaysBy(events, i, k - 1, w)
      + if events[k - 1].StartEntry? && events[k - 1].w == w then [events[k - 1].way] else []
  }

  /** What the blocks are for that it has been given. */
  ghost function BlocksBy(states: seq<State>, events: seq<Event>, i: nat, k: nat, w: nat): seq<Req>
    requires k <= |events| < |states|
  {
    if k <= i then [] else BlocksBy(states, events, i, k - 1, w) + BlockOf(states[k - 1], events[k - 1], states[k], w)
  }

  ghost function BlockOf(s: State, e: Event, s': State, w: nat): seq<Req> {
    if e == Take(w) && |s'.blocks| > |s.blocks| then [s'.blocks[|s'.blocks| - 1].req] else []
  }

  ghost predicate WaysOk(ways: seq<Way>) { forall y | y in ways :: WayOk(y) }

  /** All that the first entries need, each in its way. */
  ghost function AllReqs(entries: seq<Entry>, ways: seq<Way>): seq<Req>
    requires |ways| <= |entries| && WaysOk(ways)
  {
    if ways == [] then []
    else var n := |ways| - 1; AllReqs(entries, ways[..n]) + EntryReqs(entries[n], ways[n])
  }

  ghost predicate Progress(x: Writer, entries: seq<Entry>, ways: seq<Way>, taken: seq<Req>) {
    && |ways| <= |entries| && WaysOk(ways)
    && match x
       case Reserved(_, es, _) => es == entries && ways == [] && taken == []
       case Writing(_, es, reqs, _, _) => es == entries[|ways|..] && taken + reqs == AllReqs(entries, ways)
       case Written(_, _) => |ways| == |entries| && taken == AllReqs(entries, ways)
       case Full(_, _) => taken <= AllReqs(entries, ways)
       case _ => ways == [] && taken == []
  }

  /** In every interleaving a finished write has got a block for each part of each of its entries, in order. */
  lemma {:induction false} WritesAll(states: seq<State>, events: seq<Event>, cap: nat, i: nat, k: nat)
    requires IsRun(states, events, cap) && OVERHEAD <= cap && i < k < |states| && events[i].Reserve?
    ensures var w := |states[i].writers|;
            && w < |states[k].writers|
            && Progress(states[k].writers[w], events[i].entries, WaysBy(events, i + 1, k, w),
                        BlocksBy(states, events, i + 1, k, w))
  {
    hide Accounts, Step, Enabled, Progress, DecidedBy, BlockOf, Sum;
    GrantedIff(states, events, cap, i, k);
    if k == i + 1 {
      RunKeepsAccounts(states, events, cap, i);
      FirstCount(states[i], events[i], cap);
      NoProgress(states[k].writers[|states[i].writers|], events[i].entries);
    } else {
      WritesAll(states, events, cap, i, k - 1);
      StepProgress(states[k - 1], events[k - 1], cap, |states[i].writers|, events[i].entries,
                   WaysBy(events, i + 1, k - 1, |states[i].writers|),
                   BlocksBy(states, events, i + 1, k - 1, |states[i].writers|));
    }
  }

  lemma {:induction false} NoProgress(x: Writer, entries: seq<Entry>)
    requires x.Reserved? && x.entries == entries
    ensures Progress(x, entries, [], [])
  {
  }

  lemma {:induction false} StepProgress(s: State, e: Event, cap: nat, w: nat, entries: seq<Entry>, ways: seq<Way>,
                                        taken: seq<Req>)
    requires Enabled(s, e) && w < |s.writers| && Progress(s.writers[w], entries, ways, taken)
    ensures var s' := Step(s, e, cap);
            && w < |s'.writers|
            && Progress(s'.writers[w], entries,
                        ways + (if e.StartEntry? && e.w == w then [e.way] else []), taken + BlockOf(s, e, s', w))
  {
    hide EntryReqs, Padded, AlignUp;
    var x := s.writers[w];
    assert taken + [] == taken && ways + [] == ways && (x.Writing? ==> taken <= taken + x.reqs);
    if e.StartEntry? && e.w == w {
      StartProgress(x, entries, ways, taken, e.way);
    } else if e == Take(w) {
      assert x.reqs == [x.reqs[0]] + x.reqs[1..];
      assert taken + x.reqs == taken + [x.reqs[0]] + x.reqs[1..];
    }
  }

  lemma {:induction false} StartProgress(x: Writer, entries: seq<Entry>, ways: seq<Way>, taken: seq<Req>, way: Way)
    requires x.Writing? && x.reqs == [] && x.entries != [] && WayOk(way) && Progress(x, entries, ways, taken)
    ensures Progress(x.(entries := x.entries[1..], reqs := EntryReqs(x.entries[0], way)), entries, ways + [way], taken)
  {
    hide EntryReqs;
    assert (ways + [way])[..|ways|] == ways;
    assert taken + [] == taken;
    assert entries[|ways|..][1..] == entries[|ways| + 1..];
  }
}
