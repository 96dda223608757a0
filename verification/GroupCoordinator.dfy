/**
 kafkaserver/group_coordinator.go: one consumer group. Members join, sync and leave; timers end the
 join and sync phases and expire sessions. A join phase ends with a result for every member, under a
 new generation. Every method runs under the group's lock and is one step; a timer may fire at any
 time. Joins are those of JoinGroup version 0 of the Apache Kafka protocol, which carries no pending
 member ids.
 */
module GroupCoordinator {
  import opened Bytes
  import opened KeyEncoding

  type MemberID = string

  /** Metadata is None where the request carried none. */
  datatype Protocol = Protocol(name: string, metadata: Option<Bytes>)

  /**
   joining stands for a join completion that is waiting to be called; sync for a sync completion, with
   the generation in which it was given.
   */
  datatype Member = Member(protocols: seq<Protocol>, joining: bool, sync: Option<int>, isNew: bool)

  type Members = map<MemberID, Member>

  datatype GroupState = Empty | PreRebalance | AwaitingRebalance | Active | Dead

  /** A successful JoinResult, without the member list. */
  datatype JoinResult = JoinResult(memberID: MemberID, leader: MemberID, protocolName: string, generationID: int)

  // ----- protocols

  predicate Names(ps: seq<Protocol>, p: string) { exists x | x in ps :: x.name == p }

  ghost predicate DistinctNames(ps: seq<Protocol>) { forall i, j | 0 <= i < j < |ps| :: ps[i].name != ps[j].name }

  /** What a well-behaved client sends: at least one protocol, no name twice, metadata with each. */
  ghost predicate ProtocolsOk(ps: seq<Protocol>) {
    ps != [] && DistinctNames(ps) && forall x | x in ps :: x.metadata.Some?
  }

  ghost function Supporters(ms: Members, p: string): set<MemberID> { set id | id in ms && Names(ms[id].protocols, p) }

  ghost predicate AllSupport(ms: Members, p: string) { forall id | id in ms :: Names(ms[id].protocols, p) }

  type Counts = map<string, int>

  function CountOf(m: Counts, p: string): int { if p in m then m[p] else 0 }

  /** The counts are the numbers of members that support each protocol. */
  ghost predicate CountsTrue(counts: Counts, ms: Members) {
    forall p :: CountOf(counts, p) == |Supporters(ms, p)|
  }

  ghost predicate Shifted(before: Counts, after: Counts, ps: seq<Protocol>, diff: int) {
    forall p :: CountOf(after, p) == CountOf(before, p) + if Names(ps, p) then diff else 0
  }

  /** updateSupportedProtocols: one more, or one less, for each protocol of the list. */
  method UpdateSupportedProtocols(counts: Counts, ps: seq<Protocol>, add: bool) returns (counts': Counts)
    ensures DistinctNames(ps) ==> Shifted(counts, counts', ps, if add then 1 else -1)
    ensures counts.Keys <= counts'.Keys
  {
    counts' := counts;
    for i := 0 to |ps|
      invariant counts.Keys <= counts'.Keys
      invariant DistinctNames(ps) ==> Shifted(counts, counts', ps[..i], if add then 1 else -1)
    {
      assert ps[..i + 1] == ps[..i] + [ps[i]];
      var p := ps[i].name;
      counts' := counts'[p := CountOf(counts', p) + if add then 1 else -1];
      NamesAppend(ps[..i], ps[i]);
      if DistinctNames(ps) { assert !Names(ps[..i], p); }
    }
    assert ps[..|ps|] == ps;
  }

  lemma {:induction false} NamesAppend(ps: seq<Protocol>, x: Protocol)
    ensures forall p :: Names(ps + [x], p) <==> Names(ps, p) || x.name == p
  {
    assert forall y :: y in ps + [x] <==> y in ps || y == x;
    forall p ensures Names(ps + [x], p) <==> Names(ps, p) || x.name == p {
      if Names(ps, p) {
        var y :| y in ps && y.name == p;
        assert y in ps + [x];
      }
      if x.name == p { assert x in ps + [x]; }
    }
  }

  lemma {:induction false} SupportersAdd(ms: Members, id: MemberID, m: Member, p: string)
    requires id !in ms
    ensures Supporters(ms[id := m], p) == Supporters(ms, p) + if Names(m.protocols, p) then {id} else {}
    ensures id !in Supporters(ms, p)
  {
  }

  lemma {:induction false} CountsAfterAdd(counts: Counts, counts': Counts, ms: Members, id: MemberID, m: Member)
    requires CountsTrue(counts, ms) && id !in ms && Shifted(counts, counts', m.protocols, 1)
    ensures CountsTrue(counts', ms[id := m])
  {
    forall p ensures CountOf(counts', p) == |Supporters(ms[id := m], p)| {
      SupportersAdd(ms, id, m, p);
    }
  }

  lemma {:induction false} CountsAfterRemove(counts: Counts, counts': Counts, ms: Members, id: MemberID)
    requires CountsTrue(counts, ms) && id in ms && Shifted(counts, counts', ms[id].protocols, -1)
    ensures CountsTrue(counts', ms - {id})
  {
    var rest := ms - {id};
    assert ms == rest[id := ms[id]];
    forall p ensures CountOf(counts', p) == |Supporters(rest, p)| {
      SupportersAdd(rest, id, ms[id], p);
    }
  }

  lemma {:induction false} FullSupport(counts: Counts, ms: Members, p: string)
    requires CountsTrue(counts, ms)
    ensures CountOf(counts, p) == |ms| <==> AllSupport(ms, p)
  {
    var s := Supporters(ms, p);
    if AllSupport(ms, p) {
      assert s == ms.Keys;
    } else if |s| == |ms.Keys| {
      SameSize(s, ms.Keys);
    }
    assert |ms| == |ms.Keys|;
  }

  lemma {:induction false} SameSize(a: set<MemberID>, b: set<MemberID>)
    requires a <= b && |a| == |b|
    ensures a == b
  {
    assert b == a + (b - a);
  }

  // ----- members and counts

  /** True counts, well-formed protocols, and a protocol all members support unless there are none. */
  ghost predicate MembersOk(counts: Counts, ms: Members) {
    && CountsTrue(counts, ms) && (forall id | id in ms :: ProtocolsOk(ms[id].protocols))
    && (ms != map[] ==> exists p :: AllSupport(ms, p))
  }

  lemma {:induction false} AddKeepsMembersOk(counts: Counts, counts': Counts, ms: Members, id: MemberID, m: Member)
    requires MembersOk(counts, ms) && id !in ms && ProtocolsOk(m.protocols) && Shifted(counts, counts', m.protocols, 1)
    requires ms != map[] ==> exists p :: AllSupport(ms, p) && Names(m.protocols, p)
    ensures MembersOk(counts', ms[id := m])
  {
    CountsAfterAdd(counts, counts', ms, id, m);
    if ms != map[] {
      var p :| AllSupport(ms, p) && Names(m.protocols, p);
      assert AllSupport(ms[id := m], p);
    } else {
      assert m.protocols[0] in m.protocols;
      assert AllSupport(ms[id := m], m.protocols[0].name);
    }
  }

  lemma {:induction false} RemoveKeepsMembersOk(counts: Counts, counts': Counts, ms: Members, id: MemberID)
    requires MembersOk(counts, ms) && id in ms && Shifted(counts, counts', ms[id].protocols, -1)
    ensures MembersOk(counts', ms - {id})
  {
    CountsAfterRemove(counts, counts', ms, id);
    var p :| AllSupport(ms, p);
    assert AllSupport(ms - {id}, p);
  }

  lemma {:induction false} UpdateKeepsMembersOk(counts: Counts, counts1: Counts, counts2: Counts, ms: Members,
                                                id: MemberID, m: Member)
    requires MembersOk(counts, ms) && id in ms && ProtocolsOk(m.protocols)
    requires Shifted(counts, counts1, ms[id].protocols, -1) && Shifted(counts1, counts2, m.protocols, 1)
    requires exists p :: AllSupport(ms, p) && Names(m.protocols, p)
    ensures MembersOk(counts2, ms[id := m])
  {
    hide MembersOk, Shifted, ProtocolsOk, Names;
    RemoveKeepsMembersOk(counts, counts1, ms, id);
    var p :| AllSupport(ms, p) && Names(m.protocols, p);
    assert AllSupport(ms - {id}, p);
    AddKeepsMembersOk(counts1, counts2, ms - {id}, id, m);
    assert (ms - {id})[id := m] == ms[id := m];
  }

  /** Only protocols and ids matter. */
  lemma {:induction false} SameProtocols(counts: Counts, ms: Members, ms': Members)
    requires MembersOk(counts, ms) && ms'.Keys == ms.Keys
    requires forall id | id in ms :: ms'[id].protocols == ms[id].protocols
    ensures MembersOk(counts, ms')
    ensures forall p :: AllSupport(ms, p) <==> AllSupport(ms', p)
  {
    forall p ensures Supporters(ms', p) == Supporters(ms, p) {}
    if ms' != map[] {
      assert ms != map[];
      var p :| AllSupport(ms, p);
      assert AllSupport(ms', p);
    }
  }

  /** The metadata createMemberInfos takes: that of the first protocol of the name. */
  function MetaFor(ps: seq<Protocol>, p: string): Option<Bytes> {
    if ps == [] then None else if ps[0].name == p then ps[0].metadata else MetaFor(ps[1..], p)
  }

  /** The metadata of the first protocol with the name, if there is one. */
  lemma {:induction false} MetaIsFirst(ps: seq<Protocol>, p: string, i: nat)
    requires i <= |ps| && (i < |ps| ==> ps[i].name == p) && forall k | 0 <= k < i :: ps[k].name != p
    ensures MetaFor(ps, p) == if i < |ps| then ps[i].metadata else None
  {
    if i > 0 {
      forall k | 0 <= k < i - 1 ensures ps[1..][k].name != p { assert ps[1..][k] == ps[k + 1]; }
      MetaIsFirst(ps[1..], p, i - 1);
    }
  }

  lemma {:induction false} MetaForNamed(ps: seq<Protocol>, p: string)
    requires Names(ps, p) && forall x | x in ps :: x.metadata.Some?
    ensures MetaFor(ps, p).Some?
  {
    assert ps[0] in ps;
    if ps[0].name != p {
      var x :| x in ps && x.name == p;
      assert x in ps[1..];
      assert forall y | y in ps[1..] :: y in ps;
      MetaForNamed(ps[1..], p);
    }
  }

  /** Absent metadata compares as empty metadata. */
  function MetaBytes(meta: Option<Bytes>): Bytes { if meta.Some? then meta.value else [] }

  /** protocolInfosEqual */
  predicate SameInfos(a: seq<Protocol>, b: seq<Protocol>) {
    && |a| == |b|
    && forall i | 0 <= i < |a| :: a[i].name == b[i].name && MetaBytes(a[i].metadata) == MetaBytes(b[i].metadata)
  }

  /** Unchanged infos are the same to every choice of a protocol. */
  lemma {:induction false} SameInfosAgree(a: seq<Protocol>, b: seq<Protocol>, p: string)
    requires SameInfos(a, b)
    ensures Names(a, p) <==> Names(b, p)
    ensures MetaBytes(MetaFor(a, p)) == MetaBytes(MetaFor(b, p))
    ensures forall supported :: VotesFor(a, supported, p) <==> VotesFor(b, supported, p)
  {
    SameInfosFlip(a, b);
    hide VotesFor, MetaFor, MetaBytes, SameInfos;
    if x :| x in a && x.name == p { SameName(a, b, x); }
    if x :| x in b && x.name == p { SameName(b, a, x); }
    SameMeta(a, b, p);
    forall supported ensures VotesFor(a, supported, p) <==> VotesFor(b, supported, p) {
      if VotesFor(a, supported, p) { SameVote(a, b, supported, p); }
      if VotesFor(b, supported, p) { SameVote(b, a, supported, p); }
    }
  }

  lemma {:induction false} SameInfosFlip(a: seq<Protocol>, b: seq<Protocol>)
    ensures SameInfos(a, a) && (SameInfos(a, b) <==> SameInfos(b, a))
  {
    hide MetaBytes;
  }

  lemma {:induction false} SameVote(a: seq<Protocol>, b: seq<Protocol>, supported: set<string>, p: string)
    requires SameInfos(a, b) && VotesFor(a, supported, p)
    ensures VotesFor(b, supported, p)
  {
    var i :| 0 <= i < |a| && a[i].name == p && forall k | 0 <= k < i :: a[k].name !in supported;
    assert b[i].name == p;
  }

  lemma {:induction false} SameName(a: seq<Protocol>, b: seq<Protocol>, x: Protocol)
    requires SameInfos(a, b) && x in a
    ensures Names(b, x.name)
  {
    var i :| 0 <= i < |a| && a[i] == x;
    assert b[i] in b;
  }

  lemma {:induction false} SameMeta(a: seq<Protocol>, b: seq<Protocol>, p: string)
    requires SameInfos(a, b)
    ensures MetaBytes(MetaFor(a, p)) == MetaBytes(MetaFor(b, p))
  {
    if a != [] && a[0].name != p { SameMeta(a[1..], b[1..], p); }
  }

  // ----- the group

  predicate Live(s: GroupState) { s.AwaitingRebalance? || s.Active? }

  /** What matters of the group between two events. */
  datatype Snapshot = Snapshot(state: GroupState, members: set<MemberID>, leader: MemberID, protocolName: string,
                               generationID: int, syncs: map<MemberID, Option<int>>, assignments: seq<MemberID>,
                               newMemberAdded: bool, panicked: bool)

  /** Generations never go back, and within one, an established group does not change. */
  ghost predicate Advances(a: Snapshot, b: Snapshot) {
    && a.generationID <= b.generationID
    && (Live(b.state) && b.generationID == a.generationID ==>
          Live(a.state) && b.members == a.members && b.leader == a.leader && b.protocolName == a.protocolName)
  }

  /** An established group that stays established is untouched. */
  ghost predicate Still(a: Snapshot, b: Snapshot) {
    Live(b.state) && b.generationID == a.generationID && !b.panicked ==> b == a.(newMemberAdded := b.newMemberAdded)
  }

  /** No result is of a later generation, and any two of the same one name the same leader and protocol. */
  ghost predicate Agree(results: seq<JoinResult>, generationID: int) {
    && (forall r | r in results :: r.generationID <= generationID)
    && (forall r, q | r in results && q in results && r.generationID == q.generationID ::
          r.leader == q.leader && r.protocolName == q.protocolName)
  }

  /** Results of this generation name this leader and protocol. */
  ghost predicate Tells(results: seq<JoinResult>, leader: MemberID, protocolName: string, generationID: int) {
    forall r | r in results && r.generationID == generationID :: r.leader == leader && r.protocolName == protocolName
  }

  /** A later generation has no results yet. */
  lemma {:induction false} NewGeneration(results: seq<JoinResult>, gen: int, gen': int, leader: MemberID,
                                         protocolName: string)
    requires Agree(results, gen) && gen < gen'
    ensures Agree(results, gen') && Tells(results, leader, protocolName, gen')
    ensures forall r | r in results :: r.generationID < gen'
  {
  }

  function LateToJoin(ms: Members): set<MemberID> { set id | id in ms && !ms[id].joining }

  function LateToSync(ms: Members): set<MemberID> { set id | id in ms && !ms[id].sync.Some? }

  lemma {:induction false} RestJoined(ms: Members, late: set<MemberID>, ms': Members)
    requires Without(ms, late, ms') && late == LateToJoin(ms)
    ensures ms' == JoinedInTime(ms) && late <= ms.Keys && forall id | id in ms :: id in ms' <==> id !in late
  {
  }

  lemma {:induction false} RestSynced(ms: Members, late: set<MemberID>, ms': Members)
    requires Without(ms, late, ms') && late == LateToSync(ms)
    ensures ms == map[] ==> ms' == ms
    ensures ms' == SyncedInTime(ms) && late <= ms.Keys && forall id | id in ms :: id in ms' <==> id !in late
  {
  }

  ghost predicate LeftOut(ms: Members, ids: seq<MemberID>, ms': Members) { ms' == ms - set id | id in ids }

  /** A member that is not waiting for an answer, or is new, can be expired. */
  ghost predicate Expires(ms: Members,
                          id: MemberID) { id in ms && (ms[id].isNew || !(ms[id].joining || ms[id].sync.Some?)) }

  ghost predicate Without(ms: Members, gone: set<MemberID>, ms': Members) { ms' == ms - gone }

  /** Every member has its answer for the generation, and none is left waiting. */
  ghost predicate Answered(ms: Members, results: seq<JoinResult>, leader: MemberID, protocolName: string,
                           generationID: int) {
    forall id | id in ms :: !ms[id].joining && JoinResult(id, leader, protocolName, generationID) in results
  }

  /** The members when id joins or rejoins. */
  function Joined(ms: Members, id: MemberID, ps: seq<Protocol>): Members {
    if id in ms then ms[id := ms[id].(protocols := ps, joining := true)] else ms[id := Member(ps, true, None, true)]
  }

  /** The members when all have been answered. Their sync completions stay. */
  function Answer(ms: Members): Members { map id | id in ms :: ms[id].(joining := false, isNew := false) }

  ghost predicate AllJoined(ms: Members) { forall id | id in ms :: ms[id].joining }

  // ----- members that go

  /** A leader that goes is followed by a member, if there is one left; else it is the same. */
  ghost predicate Succeeds(leader: MemberID, ms: Members, leader': MemberID, ms': Members) {
    if leader in ms && leader !in ms' && ms' != map[] then leader' in ms' else leader' == leader
  }

  /** Assignments are dropped with the leader that made them, or with the last member. */
  ghost function AssignmentsLeft(assignments: seq<MemberID>, leader: MemberID, ms: Members, ms': Members)
    : seq<MemberID>
  {
    if (leader in ms && leader !in ms') || (ms != map[] && ms' == map[]) then [] else assignments
  }

  lemma {:induction false} LeftBehind(assignments: seq<MemberID>, leader: MemberID, ms: Members, ms': Members)
    ensures AssignmentsLeft(assignments, leader, ms, ms')
            == if (leader in ms && leader !in ms') || (ms != map[] && ms' == map[]) then [] else assignments
    ensures ms' == map[] || leader !in ms || leader in ms' ==> Succeeds(leader, ms, leader, ms')
  {
  }

  lemma {:induction false} LeftWith(leader: MemberID, ms: Members, leader': MemberID, ms': Members)
    requires if leader in ms && leader !in ms' then leader' in ms' else leader' == leader
    ensures ms' != map[] ==> Succeeds(leader, ms, leader', ms')
  {
  }

  ghost function JoinedInTime(ms: Members): Members { map id | id in ms && ms[id].joining :: ms[id] }

  ghost function SyncedInTime(ms: Members): Members { map id | id in ms && ms[id].sync.Some? :: ms[id] }

  // ----- the protocol of a generation

  ghost predicate AllDescribe(ms: Members, p: string) { forall id | id in ms :: MetaFor(ms[id].protocols, p).Some? }

  /** The winner has the most votes; without any vote it is the empty name. */
  ghost predicate Elected(counts: Counts, ms: Members, winner: string) {
    var supported := Supported(counts, ms);
    && (forall p :: |Voters(ms, supported, p)| <= |Voters(ms, supported, winner)|)
    && (Voters(ms, supported, winner) != {} || winner == "")
  }

  lemma {:induction false} NobodyDescribes(ms: Members, p: string)
    ensures ms == map[] ==> AllDescribe(ms, p)
  {
  }

  /** One result for each of these members, and no others, come after results0. */
  ghost predicate AnswersFor(results0: seq<JoinResult>, results: seq<JoinResult>, ids: set<MemberID>, leader: MemberID,
                             protocolName: string, generationID: int) {
    && results0 <= results && |results| == |results0| + |ids|
    && (forall id | id in ids :: JoinResult(id, leader, protocolName, generationID) in results)
    && (forall i | |results0| <= i < |results| :: results[i].memberID in ids
          && results[i] == JoinResult(results[i].memberID, leader, protocolName, generationID))
  }

  /** Those done have their answer. */
  ghost function AnswerSome(ms: Members, done: set<MemberID>): Members {
    map id | id in ms :: if id in done then ms[id].(joining := false, isNew := false) else ms[id]
  }

  lemma {:induction false} AnswerNone(ms: Members)
    ensures AnswerSome(ms, {}) == ms && AnswerSome(ms, ms.Keys) == Answer(ms)
  {
  }

  lemma {:induction false} AnswerOne(ms: Members, done: set<MemberID>, id: MemberID)
    requires id in ms
    ensures var some := AnswerSome(ms, done);
            && some.Keys == ms.Keys
            && AnswerSome(ms, done + {id}) == some[id := some[id].(joining := false, isNew := false)]
  {
  }

  lemma {:induction false} NoAnswers(results: seq<JoinResult>, ids: set<MemberID>, leader: MemberID,
                                     protocolName: string, generationID: int)
    requires ids == {}
    ensures AnswersFor(results, results, ids, leader, protocolName, generationID)
  {
  }

  lemma {:induction false} AnswersMore(results0: seq<JoinResult>, results: seq<JoinResult>, ids: set<MemberID>,
                                       leader: MemberID, protocolName: string, generationID: int, id: MemberID)
    requires AnswersFor(results0, results, ids, leader, protocolName, generationID) && id !in ids
    ensures AnswersFor(results0, results + [JoinResult(id, leader, protocolName, generationID)], ids + {id}, leader,
                       protocolName, generationID)
  {
    var results' := results + [JoinResult(id, leader, protocolName, generationID)];
    assert results'[|results|] in results';
    forall m | m in ids ensures JoinResult(m, leader, protocolName, generationID) in results' {
      assert JoinResult(m, leader, protocolName, generationID) in results;
    }
  }

  lemma {:induction false} NoneOfIt(results: seq<JoinResult>, generationID: int)
    requires forall r | r in results :: r.generationID < generationID
    ensures forall leader, protocolName :: Tells(results, leader, protocolName, generationID)
  {
  }

  lemma {:induction false} AnswersSupport(counts: Counts, ms: Members, p: string)
    requires MembersOk(counts, ms) && AllSupport(ms, p)
    ensures MembersOk(counts, Answer(ms)) && AllSupport(Answer(ms), p)
  {
    hide MembersOk;
    SameProtocols(counts, ms, Answer(ms));
  }

  /** They tell the members of the generation, where there was no result of it before. */
  lemma {:induction false} AnswersTell(results0: seq<JoinResult>, results: seq<JoinResult>, ms: Members,
                                       leader: MemberID, protocolName: string, generationID: int)
    requires AnswersFor(results0, results, ms.Keys, leader, protocolName, generationID) && Agree(results0, generationID)
    requires forall r | r in results0 :: r.generationID < generationID
    ensures Agree(results, generationID) && Tells(results, leader, protocolName, generationID) && results0 <= results
    ensures Answered(Answer(ms), results, leader, protocolName, generationID) && Answer(ms).Keys == ms.Keys
  {
    forall r | r in results
      ensures r in results0 || r == JoinResult(r.memberID, leader, protocolName, generationID)
    {
      var i :| 0 <= i < |results| && results[i] == r;
      if i < |results0| { assert results0[i] == r; }
    }
  }

  /**
   A generation begins for these members: its protocol is elected, and every member is answered once. It is
   a panic if one of them has no metadata for the protocol.
   */
  ghost predicate Begun(counts: Counts, ms: Members, leader: MemberID, protocolName: string, generationID: int,
                        results0: seq<JoinResult>, panicked: bool, ms': Members, results: seq<JoinResult>) {
    && Elected(counts, ms, protocolName) && (panicked <==> !AllDescribe(ms, protocolName))
    && ms' == (if panicked then ms else Answer(ms))
    && if panicked then results == results0
       else AnswersFor(results0, results, ms.Keys, leader, protocolName, generationID)
  }

  // ----- sync completions and generations

  ghost function Syncs(ms: Members): map<MemberID, Option<int>> { map id | id in ms :: ms[id].sync }

  /** No completion was given in a later generation. */
  ghost predicate SyncsOk(syncs: map<MemberID, Option<int>>, gen: int) {
    forall id | id in syncs && syncs[id].Some? :: syncs[id].value <= gen
  }

  /** Every completion was given in this generation. */
  ghost predicate Fresh(syncs: map<MemberID, Option<int>>, gen: int) {
    forall id | id in syncs && syncs[id].Some? :: syncs[id].value == gen
  }

  ghost predicate NoneWaits(syncs: map<MemberID, Option<int>>) { forall id | id in syncs :: syncs[id].None? }

  /** Completions that are there were there before. */
  ghost predicate SyncsFrom(ms: Members, ms': Members) {
    forall id | id in ms' && ms'[id].sync.Some? :: id in ms && ms'[id].sync == ms[id].sync
  }

  /** Or were given by id in this generation. */
  ghost predicate SyncedBy(ms: Members, id: MemberID, gen: int, ms': Members) {
    forall m | m in ms' && ms'[m].sync.Some? :: (m in ms && ms'[m].sync == ms[m].sync)
      || (m == id && ms'[m].sync == Some(gen))
  }

  lemma {:induction false} SyncsRefl(ms: Members)
    ensures SyncsFrom(ms, ms) && SyncsFrom(ms, Answer(ms))
  {
  }

  lemma {:induction false} SyncsOf(ms: Members, ms': Members, id: MemberID, gen: int)
    requires id in ms && ms' == ms[id := ms[id].(sync := Some(gen))]
    ensures Syncs(ms') == Syncs(ms)[id := Some(gen)] && Syncs(ms).Keys == ms.Keys
    ensures (forall m | m in ms' :: ms'[m].sync.Some?) <==> OthersWait(Syncs(ms), id)
  {
    if OthersWait(Syncs(ms), id) {
      forall m | m in ms' ensures ms'[m].sync.Some? { assert m in Syncs(ms); }
    }
    if forall m | m in ms' :: ms'[m].sync.Some? {
      forall m | m in Syncs(ms) ensures m == id || Syncs(ms)[m].Some? { assert m in ms'; }
    }
  }

  lemma {:induction false} PanicsIff(a: Snapshot, id: MemberID, assignees: seq<MemberID>)
    requires a.state == AwaitingRebalance
    ensures SyncPanics(a, id, a.generationID, assignees)
            <==> id in a.members && OthersWait(a.syncs, id) && BadAssignments(a.members, Given(a, id, assignees))
  {
  }

  lemma {:induction false} EffectFrom(a: Snapshot, b: Snapshot, id: MemberID, assignees: seq<MemberID>)
    requires b.generationID == a.generationID && b.members == a.members && b.leader == a.leader
    requires b.assignments == Given(a, id, assignees)
    requires b.state == if OthersWait(a.syncs, id) then Active else AwaitingRebalance
    requires b.state == AwaitingRebalance || b.assignments == [] ==> b.syncs == a.syncs[id := Some(a.generationID)]
    ensures SyncEffect(a, id, assignees, b)
  {
  }

  /** Sync completions of those named in the assignments may be gone, and nothing else is different. */
  ghost predicate Handed(ms: Members, assignments: seq<MemberID>, ms': Members) {
    && ms'.Keys == ms.Keys
    && forall m | m in ms' :: ms'[m] == ms[m] || (m in assignments && ms'[m] == ms[m].(sync := None))
  }

  ghost function HandedOut(ms: Members, assignments: seq<MemberID>): Members {
    map m | m in ms :: if m in assignments then ms[m].(sync := None) else ms[m]
  }

  lemma {:induction false} HandedNone(ms: Members)
    ensures HandedOut(ms, []) == ms
  {
  }

  /** The same after a completion of id. */
  ghost predicate OnlyHanded(ms: Members, id: MemberID, gen: int, assignments: seq<MemberID>, ms': Members) {
    Handed(if id in ms then ms[id := ms[id].(sync := Some(gen))] else ms, assignments, ms')
  }

  /** Counts stay true and the protocol stays supported. */
  ghost predicate KeepsProtocols(counts: Counts, protocolName: string, ms: Members, ms': Members) {
    MembersOk(counts, ms) ==>
      MembersOk(counts, ms') && (AllSupport(ms, protocolName) ==> AllSupport(ms', protocolName))
  }

  lemma {:induction false} SyncUnheard(counts: Counts, protocolName: string, ms: Members, id: MemberID, gen: int,
                                       assignments: seq<MemberID>)
    ensures SyncedBy(ms, id, gen, ms) && KeepsProtocols(counts, protocolName, ms, ms)
    ensures id !in ms ==> OnlyHanded(ms, id, gen, assignments, ms)
  {
    hide MembersOk, AllSupport;
  }

  lemma {:induction false} SyncHeard(counts: Counts, protocolName: string, ms: Members, ms': Members, ms'': Members,
                                     id: MemberID, gen: int, assignments: seq<MemberID>)
    requires id in ms && ms' == ms[id := ms[id].(sync := Some(gen))]
    requires ms'' == ms' || Handed(ms', assignments, ms'')
    ensures SyncedBy(ms, id, gen, ms'') && OnlyHanded(ms, id, gen, assignments, ms'')
    ensures KeepsProtocols(counts, protocolName, ms, ms'')
  {
    hide MembersOk, AllSupport;
    if MembersOk(counts, ms) { SameProtocols(counts, ms, ms''); }
  }

  lemma {:induction false} SyncsTrans(a: Members, b: Members, c: Members)
    requires SyncsFrom(a, b) && SyncsFrom(b, c)
    ensures SyncsFrom(a, c)
  {
  }

  lemma {:induction false} JoinedSyncs(ms: Members, id: MemberID, ps: seq<Protocol>)
    ensures SyncsFrom(ms, Joined(ms, id, ps)) && SyncsFrom(ms, Answer(Joined(ms, id, ps)))
    ensures Joined(ms, id, ps).Keys == ms.Keys + {id} && Joined(ms, id, ps)[id].joining
  {
  }

  /** Assignments that name a stranger, or someone twice. */
  ghost predicate BadAssignments(ids: set<MemberID>, assignments: seq<MemberID>) {
    exists i | 0 <= i < |assignments| :: assignments[i] !in ids || assignments[i] in assignments[..i]
  }

  ghost predicate OthersWait(syncs: map<MemberID, Option<int>>, id: MemberID) {
    forall m | m in syncs :: m == id || syncs[m].Some?
  }

  /** The assignments in force once id has synced. */
  function Given(a: Snapshot, id: MemberID, assignees: seq<MemberID>): seq<MemberID> {
    if a.leader == id then assignees else a.assignments
  }

  /** A sync that is heard. */
  ghost predicate Heard(a: Snapshot, id: MemberID, genID: int) {
    a.state == AwaitingRebalance && genID == a.generationID && id in a.members
  }

  /** A sync on an empty group panics, and so does the last one if the assignments are bad. */
  ghost predicate SyncPanics(a: Snapshot, id: MemberID, genID: int, assignees: seq<MemberID>) {
    || (genID == a.generationID && a.state == Empty)
    || (Heard(a, id, genID) && OthersWait(a.syncs, id)
        && BadAssignments(a.members, Given(a, id, assignees)))
  }

  /** What a sync that is heard does, if it does not panic. */
  ghost predicate SyncEffect(a: Snapshot, id: MemberID, assignees: seq<MemberID>, b: Snapshot) {
    && b.generationID == a.generationID && b.members == a.members && b.leader == a.leader
    && b.assignments == Given(a, id, assignees)
    && (if OthersWait(a.syncs, id) then b.state == Active else b.state == AwaitingRebalance)
    && (b.state == AwaitingRebalance || b.assignments == [] ==> b.syncs == a.syncs[id := Some(a.generationID)])
  }

  class Group {
    var state: GroupState
    var members: Members
    var leader: MemberID
    var protocolName: string
    var counts: Counts
    var generationID: int
    var newMemberAdded: bool
    var initialJoinDelayExpired: bool
    var assignments: seq<MemberID>
    var panicked: bool
    ghost var results: seq<JoinResult>

    ghost function Snap(): Snapshot
      reads this
    {
      Snapshot(state, members.Keys, leader, protocolName, generationID, Syncs(members), assignments, newMemberAdded,
               panicked)
    }

    /** Results of one generation agree. */
    ghost predicate PastOk()
      reads this
    {
      Agree(results, generationID)
    }

    /** And those of the current one say what the established group is. */
    ghost predicate ResultsOk()
      reads this
    {
      PastOk() && (Live(state) ==> Tells(results, leader, protocolName, generationID))
    }

    /** Holds in every run, whatever clients send and whenever timers fire. */
    ghost predicate Valid()
      reads this
    {
      ResultsOk() && (state == Empty ==> members == map[])
    }

    /** Holds when clients are well-behaved and the initial timer fires only in its own phase. */
    ghost predicate Sound()
      reads this
    {
      && !panicked && MembersOk(counts, members) && (state == Empty <==> members == map[])
      && (members != map[] ==> leader in members)
      && (Live(state) ==> AllSupport(members, protocolName))
    }

    constructor ()
      ensures Valid() && Sound() && state == Empty && results == [] && generationID == 0 && !initialJoinDelayExpired
    {
      state, members, leader, protocolName, counts, generationID := Empty, map[], "", "", map[], 0;
      newMemberAdded, initialJoinDelayExpired, panicked, results, assignments := false, false, false, [], [];
    }

    // ----- helpers

    /** canSupportProtocols: is one of them already supported by all members? */
    method CanSupportProtocols(ps: seq<Protocol>) returns (ok: bool)
      ensures MembersOk(counts, members) && members != map[] ==>
                (ok <==> exists p :: AllSupport(members, p) && Names(ps, p))
      ensures (exists x | x in ps :: x.name in counts && counts[x.name] == |members|) ==> ok
    {
      hide MembersOk, AllSupport;
      for i := 0 to |ps|
        invariant forall k | 0 <= k < i :: !(ps[k].name in counts && counts[ps[k].name] == |members|)
        invariant MembersOk(counts, members) && members != map[] ==>
                    forall k | 0 <= k < i :: !AllSupport(members, ps[k].name)
      {
        var p := ps[i].name;
        if MembersOk(counts, members) && members != map[] { SupportedIff(counts, members, p); }
        if p in counts && counts[p] == |members| {
          assert ps[i] in ps && Names(ps, p);
          return true;
        }
      }
      if MembersOk(counts, members) && members != map[] {
        forall p | Names(ps, p) ensures !AllSupport(members, p) {
          var x :| x in ps && x.name == p;
          var k :| 0 <= k < |ps| && ps[k] == x;
        }
      }
      return false;
    }

    /** chooseProtocol: each member votes for the first of its protocols that all support; most votes wins. */
    method ChooseProtocol() returns (winner: string)
      ensures MembersOk(counts, members) && members != map[] ==> AllSupport(members, winner)
      ensures Elected(counts, members, winner)
    {
      hide MembersOk, AllSupport, ProtocolsOk, Voters;
      var supported := set p | p in counts && counts[p] == |members|;
      if MembersOk(counts, members) && members != map[] {
        forall p ensures p in supported <==> AllSupport(members, p) { SupportedIff(counts, members, p); }
      }
      var votes := CollectVotes(supported);
      winner := "";
      var maxVotes := 0;
      var names := votes.Keys;
      while names != {}
        invariant names <= votes.Keys && maxVotes >= 0
        invariant if maxVotes == 0 then names == votes.Keys && winner == ""
                  else winner in votes && votes[winner] == maxVotes
        invariant forall p | p in votes && p !in names :: votes[p] <= maxVotes
      {
        var p :| p in names;
        if votes[p] > maxVotes { maxVotes, winner := votes[p], p; }
        names := names - {p};
      }
    }

    /** The votes, counted per protocol; a protocol without votes is not there. */
    method CollectVotes(supported: set<string>) returns (votes: map<string, int>)
      ensures forall p | p in votes :: p in supported && votes[p] >= 1
      ensures VotesOf(votes, members, supported)
      ensures MembersOk(counts, members) && members != map[] ==>
                (forall p :: p in supported <==> AllSupport(members, p)) ==> votes != map[]
    {
      hide MembersOk, AllSupport, VotesOf, VotesFor;
      votes := map[];
      var ids := members.Keys;
      ghost var seen: Members := map[];
      NoVotes(supported);
      while ids != {}
        invariant ids <= members.Keys && (forall p | p in votes :: p in supported && votes[p] >= 1)
        invariant seen == members - ids && VotesOf(votes, seen, supported)
      {
        var id :| id in ids;
        var vote := VoteOf(members[id].protocols, supported);
        VoteCounted(votes, seen, id, members[id], supported, vote);
        seen := seen[id := members[id]];
        assert members - (ids - {id}) == seen;
        if vote.Some? { votes := votes[vote.value := if vote.value in votes then votes[vote.value] + 1 else 1]; }
        ids := ids - {id};
      }
      assert seen == members;
      if MembersOk(counts, members) && members != map[] && forall p :: p in supported <==> AllSupport(members, p) {
        SomeoneVotes(counts, members, supported, votes);
      }
    }

    /** The inner loop: up to the first supported protocol. */
    method VoteOf(ps: seq<Protocol>, supported: set<string>) returns (vote: Option<string>)
      ensures forall p :: vote == Some(p) <==> VotesFor(ps, supported, p)
      ensures vote.Some? ==> vote.value in supported
    {
      var i := 0;
      while i < |ps|
        invariant 0 <= i <= |ps| && forall k | 0 <= k < i :: ps[k].name !in supported
      {
        if ps[i].name in supported { return Some(ps[i].name); }
        i := i + 1;
      }
      return None;
    }

    /** createMemberInfos: every member's metadata for the chosen protocol; a missing one is a panic. */
    method CreateMemberInfos() returns (ok: bool, infos: map<MemberID, Bytes>)
      ensures ok <==> AllDescribe(members, protocolName)
      ensures ok ==>
                infos.Keys == members.Keys
                && forall id | id in members :: MetaFor(members[id].protocols, protocolName) == Some(infos[id])
    {
      infos := map[];
      var ids := members.Keys;
      while ids != {}
        invariant ids <= members.Keys && infos.Keys == members.Keys - ids
        invariant forall id | id in infos :: MetaFor(members[id].protocols, protocolName) == Some(infos[id])
      {
        var id :| id in ids;
        var ps := members[id].protocols;
        var meta: Option<Bytes> := None;
        var i := 0;
        while i < |ps| && ps[i].name != protocolName
          invariant 0 <= i <= |ps| && MetaFor(ps, protocolName) == MetaFor(ps[i..], protocolName)
        {
          i := i + 1;
        }
        if i < |ps| { meta := ps[i].metadata; }
        if meta.None? { return false, infos; }
        infos := infos[id := meta.value];
        ids := ids - {id};
      }
      return true, infos;
    }

    method AddMember(id: MemberID, ps: seq<Protocol>)
      requires id !in members
      modifies this`members, this`counts, this`newMemberAdded
      ensures members == old(members)[id := Member(ps, true, None, true)] && newMemberAdded
      ensures DistinctNames(ps) ==> Shifted(old(counts), counts, ps, 1)
    {
      members := members[id := Member(ps, true, None, true)];
      counts := UpdateSupportedProtocols(counts, ps, true);
      newMemberAdded := true;
    }

    method UpdateMember(id: MemberID, ps: seq<Protocol>)
      requires id in members
      modifies this`members, this`counts
      ensures members == old(members)[id := old(members)[id].(protocols := ps, joining := true)]
      ensures MembersOk(old(counts), old(members)) && ProtocolsOk(ps) ==>
                (exists p :: AllSupport(old(members), p) && Names(ps, p)) ==>
                MembersOk(counts, members)
    {
      hide MembersOk, AllSupport, Names, Shifted;
      ghost var counts0, ms0 := counts, members;
      var m := members[id];
      counts := UpdateSupportedProtocols(counts, m.protocols, false);
      ghost var counts1 := counts;
      members := members[id := m.(protocols := ps, joining := true)];
      counts := UpdateSupportedProtocols(counts, ps, true);
      if MembersOk(counts0, ms0) && ProtocolsOk(ps) && exists p :: AllSupport(ms0, p) && Names(ps, p) {
        MemberProtocolsOk(counts0, ms0, id);
        UpdateKeepsMembersOk(counts0, counts1, counts, ms0, id, m.(protocols := ps, joining := true));
      }
    }

    method RemoveMember(id: MemberID) returns (removed: bool)
      modifies this`members, this`counts, this`state, this`assignments
      ensures removed == (id in old(members)) && members == old(members) - {id}
      ensures state == if removed && members == map[] then Empty else old(state)
      ensures MembersOk(old(counts), old(members)) ==> MembersOk(counts, members)
      ensures !removed ==> counts == old(counts)
      ensures assignments == if removed && members == map[] then [] else old(assignments)
      ensures old(counts).Keys <= counts.Keys
    {
      hide MembersOk, Shifted;
      if id !in members { return false; }
      var m := members[id];
      ghost var counts0, ms0 := counts, members;
      members := members - {id};
      counts := UpdateSupportedProtocols(counts, m.protocols, false);
      if MembersOk(counts0, ms0) {
        MemberProtocolsOk(counts0, ms0, id);
        RemoveKeepsMembersOk(counts0, counts, ms0, id);
      }
      if members == map[] {
        state := Empty;
        assignments := [];
      }
      return true;
    }

    /** Removes every member of a set, as the loops of the timeouts do. */
    method RemoveMembers(gone: set<MemberID>)
      modifies this`members, this`counts, this`state, this`assignments
      ensures Without(old(members), gone, members) && SyncsFrom(old(members), members)
      ensures leader in old(members) && leader !in gone ==> leader in members
      ensures state == if members == map[] && old(members) != map[] then Empty else old(state)
      ensures MembersOk(old(counts), old(members)) ==> MembersOk(counts, members)
      ensures assignments == if members == map[] && old(members) != map[] then [] else old(assignments)
    {
      hide MembersOk;
      var ids := gone;
      while ids != {}
        invariant assignments == if members == map[] && old(members) != map[] then [] else old(assignments)
        invariant ids <= gone && members == old(members) - (gone - ids)
        invariant state == if members == map[] && old(members) != map[] then Empty else old(state)
        invariant MembersOk(old(counts), old(members)) ==> MembersOk(counts, members)
      {
        var id :| id in ids;
        var removed := RemoveMember(id);
        assert gone - (ids - {id}) == (gone - ids) + {id};
        ids := ids - {id};
      }
      assert gone - ids == gone;
    }

    method TriggerRebalance()
      modifies this`state, this`panicked
      ensures members == map[] ==> panicked && state == old(state)
      ensures members != map[] ==> state == PreRebalance && panicked == old(panicked)
    {
      if |members| == 0 {
        panicked := true;
        return;
      }
      state := PreRebalance;
    }

    /** chooseNewLeader: any member. */
    method ChooseNewLeader() returns (id: MemberID)
      ensures if members == map[] then id == "" else id in members
    {
      id := "";
      if members != map[] { id :| id in members; }
    }

    /** sendJoinResults: choose the protocol, answer every member, and wait for the assignments. */
    method SendJoinResults()
      requires forall r | r in results :: r.generationID < generationID
      requires ResultsOk() && !panicked
      modifies this`protocolName, this`members, this`state, this`panicked, this`results
      ensures ResultsOk() && members.Keys == old(members).Keys && old(results) <= results
      ensures !panicked ==> state == AwaitingRebalance && Answered(members, results, leader, protocolName, generationID)
      ensures members == if panicked then old(members) else Answer(old(members))
      ensures panicked ==> state == old(state) && old(members) != map[] && results == old(results)
      ensures Begun(counts, old(members), leader, protocolName, generationID, old(results), panicked, members, results)
      ensures MembersOk(counts, old(members)) && old(members) != map[] ==>
                !panicked && MembersOk(counts, members) && AllSupport(members, protocolName)
    {
      hide MembersOk, AllSupport, AllDescribe, Elected, AnswersFor, Answered, Answer, Agree, Tells, MetaFor;
      NoneOfIt(results, generationID);
      protocolName := ChooseProtocol();
      NobodyDescribes(members, protocolName);
      var ok, infos := CreateMemberInfos();
      if MembersOk(counts, members) && members != map[] { InfosFound(counts, members, protocolName); }
      if !ok {
        panicked := true;
        return;
      }
      ghost var ms0, results0 := members, results;
      AnswerAll();
      state := AwaitingRebalance;
      AnswersTell(results0, results, ms0, leader, protocolName, generationID);
      if MembersOk(counts, ms0) && ms0 != map[] { AnswersSupport(counts, ms0, protocolName); }
    }

    /** The loop of sendJoinResults over the members. */
    method AnswerAll()
      modifies this`members, this`results
      ensures members == Answer(old(members))
      ensures AnswersFor(old(results), results, old(members).Keys, leader, protocolName, generationID)
    {
      hide AnswersFor, AnswerSome, Answer;
      var ids := members.Keys;
      ghost var ms, done: set<MemberID> := members, {};
      NoAnswers(results, done, leader, protocolName, generationID);
      AnswerNone(ms);
      while ids != {}
        invariant ids <= ms.Keys && done == ms.Keys - ids && members == AnswerSome(ms, done)
        invariant AnswersFor(old(results), results, done, leader, protocolName, generationID)
      {
        var id :| id in ids;
        AnswersMore(old(results), results, done, leader, protocolName, generationID, id);
        AnswerOne(ms, done, id);
        results := results + [JoinResult(id, leader, protocolName, generationID)];
        members := members[id := members[id].(joining := false, isNew := false)];
        done := done + {id};
        ids := ids - {id};
      }
      assert done == ms.Keys;
    }

    /** maybeCompleteJoin: once every member has (re)joined, a new generation begins. */
    method MaybeCompleteJoin() returns (completed: bool)
      requires ResultsOk() && !panicked
      modifies this`protocolName, this`members, this`state, this`panicked, this`results, this`generationID
      ensures ResultsOk() && members.Keys == old(members).Keys
      ensures completed <==> AllJoined(old(members))
      ensures generationID == old(generationID) + if completed then 1 else 0
      ensures members == (if completed && !panicked then Answer(old(members)) else old(members))
      ensures old(results) <= results
      ensures !completed ==> Snap() == old(Snap()) && results == old(results) && !panicked && members == old(members)
      ensures completed && !panicked ==>
                state == AwaitingRebalance && Answered(members, results, leader, protocolName, generationID)
      ensures panicked ==> state == old(state) && old(members) != map[] && results == old(results)
      ensures completed ==>
                Begun(counts, old(members), leader, protocolName, generationID, old(results), panicked, members,
                      results)
      ensures MembersOk(counts, old(members)) && old(members) != map[] ==>
                !panicked && MembersOk(counts, members) && (completed ==> AllSupport(members, protocolName))
    {
      hide MembersOk, AllSupport, Agree, Tells, Begun;
      var waiters := 0;
      var ids := members.Keys;
      ghost var waiting: set<MemberID> := {};
      while ids != {}
        invariant ids <= members.Keys && waiters == |waiting|
        invariant waiting == set id | id in members && id !in ids && members[id].joining
      {
        var id :| id in ids;
        if members[id].joining { waiters, waiting := waiters + 1, waiting + {id}; }
        ids := ids - {id};
      }
      AllWaiting(members, waiting);
      if waiters != |members| { return false; }
      NewGeneration(results, generationID, generationID + 1, leader, protocolName);
      generationID := generationID + 1;
      SendJoinResults();
      return true;
    }

    // ----- joining

    ghost predicate FirstJoined(id: MemberID)
      reads this
    {
      members.Keys == {id} && leader == id && state == PreRebalance && !newMemberAdded && !panicked
    }

    /** What an accepted join does to the members, the state and the generation. */
    ghost predicate JoinedOk(state0: GroupState, ms0: Members, leader0: MemberID, gen0: int, id: MemberID,
                             ps: seq<Protocol>)
      reads this
    {
      var ms := Joined(ms0, id, ps);
      match state0
      case Empty => members == ms && leader == id && state == PreRebalance && generationID == gen0
      case PreRebalance =>
        && leader == leader0
        && if initialJoinDelayExpired && AllJoined(ms)
           then members == Answer(ms) && state == AwaitingRebalance && generationID == gen0 + 1
           else members == ms && state == PreRebalance && generationID == gen0
      case AwaitingRebalance =>
        && leader == leader0 && generationID == gen0
        && if id in ms0 && SameInfos(ms0[id].protocols, ps) then members == ms0 && state == AwaitingRebalance
           else members == ms && state == PreRebalance
      case Active =>
        && leader == leader0 && generationID == gen0
        && if id in ms0 && leader0 != id then members == ms0 && state == Active
           else members == ms && state == PreRebalance
      case Dead => members == ms0
    }

    /** And what it does to the rest: a reset drops assignments, and whoever asks gets one answer for a generation. */
    ghost predicate JoinedRest(a: Snapshot, ms0: Members, results0: seq<JoinResult>, id: MemberID,
                               ps: seq<Protocol>)
      reads this
    {
      && assignments == (if a.state == AwaitingRebalance && state == PreRebalance then [] else a.assignments)
      && newMemberAdded == (a.state != Empty && (a.newMemberAdded || id !in a.members))
      && if generationID > a.generationID
         then Begun(counts, Joined(ms0, id, ps), leader, protocolName, generationID, results0, false, members, results)
         else protocolName == a.protocolName
              && results == results0 + if Live(a.state) && state == a.state
                                       then [JoinResult(id, leader, protocolName, generationID)] else []
    }

    /** Join. A member without an id is given one. */
    method Join(memberID: MemberID, generated: MemberID, ps: seq<Protocol>) returns (accepted: bool)
      requires Valid() && !panicked
      modifies this
      ensures Valid() && Advances(old(Snap()), Snap())
      ensures SyncsFrom(old(members), members) && old(results) <= results
      ensures initialJoinDelayExpired == old(initialJoinDelayExpired)
      ensures Still(old(Snap()), Snap()) && (state == Active ==> old(state) == Active)
      ensures accepted && !panicked ==> var id := if memberID == "" then generated else memberID;
                && JoinedOk(old(state), old(members), old(leader), old(generationID), id, ps)
                && JoinedRest(old(Snap()), old(members), old(results), id, ps)
      ensures old(state) == AwaitingRebalance && old(members) == map[] && accepted ==> panicked
      ensures old(state) == AwaitingRebalance && old(members) == map[] ==>
                (panicked <== exists x | x in ps :: x.name in old(counts) && old(counts)[x.name] == 0)
      ensures old(Sound()) && old(state) != Dead ==>
                (accepted <==> old(state) == Empty || exists p :: AllSupport(old(members), p) && Names(ps, p))
      ensures !accepted ==> Snap() == old(Snap()) && members == old(members) && results == old(results)
      ensures accepted && !panicked ==>
                members.Keys == old(members).Keys + {if memberID == "" then generated else memberID}
      ensures accepted && !panicked && Live(old(state)) ==> state == PreRebalance || Snap() == old(Snap())
      ensures old(Sound()) && ProtocolsOk(ps) ==> Sound()
      ensures old(state) == Empty ==> FirstJoined(if memberID == "" then generated else memberID)
    {
      hide MembersOk, AllSupport, ProtocolsOk, Agree, Tells, SyncsFrom;
      SyncsRefl(members);
      var canSupport := CanSupportProtocols(ps);
      if state != Empty && !canSupport { return false; }
      var id := if memberID == "" then generated else memberID;
      accepted := state != Dead;
      match state
      case Empty => JoinEmpty(id, ps);
      case PreRebalance => JoinPreRebalance(id, ps);
      case AwaitingRebalance => JoinAwaiting(id, ps);
      case Active => JoinActive(id, ps);
      case Dead =>
    }

    /** The first to join leads. */
    method JoinEmpty(id: MemberID, ps: seq<Protocol>)
      requires Valid() && !panicked && state == Empty
      modifies this
      ensures Valid() && Advances(old(Snap()), Snap())
      ensures old(Sound()) && ProtocolsOk(ps) ==> Sound()
      ensures FirstJoined(id) && SyncsFrom(old(members), members) && results == old(results)
      ensures initialJoinDelayExpired == old(initialJoinDelayExpired)
      ensures JoinedOk(Empty, old(members), old(leader), old(generationID), id, ps)
      ensures JoinedRest(old(Snap()), old(members), old(results), id, ps)
    {
      hide MembersOk, AllSupport, Agree, Tells, Begun, Answered, Answer;
      ghost var counts0, ms0 := counts, members;
      leader := id;
      AddMember(id, ps);
      newMemberAdded := false;
      state := PreRebalance;
      if MembersOk(counts0, ms0) && ProtocolsOk(ps) { AddKeepsMembersOk(counts0, counts, ms0, id, members[id]); }
    }

    method JoinPreRebalance(id: MemberID, ps: seq<Protocol>)
      requires Valid() && !panicked && state == PreRebalance
      modifies this
      ensures Valid() && Advances(old(Snap()), Snap())
      ensures members.Keys == old(members).Keys + {id}
      ensures SyncsFrom(old(members), members) && old(results) <= results
      ensures initialJoinDelayExpired == old(initialJoinDelayExpired)
      ensures Still(old(Snap()), Snap()) && (state == Active ==> old(state) == Active)
      ensures !panicked ==> JoinedOk(PreRebalance, old(members), old(leader), old(generationID), id, ps)
      ensures !panicked ==> JoinedRest(old(Snap()), old(members), old(results), id, ps)
      ensures old(Sound()) && ProtocolsOk(ps) && (exists p :: AllSupport(old(members), p) && Names(ps, p)) ==> Sound()
    {
      hide MembersOk, AllSupport, ProtocolsOk, Shifted, Agree, Tells, SyncsFrom, Syncs, Answer, AllJoined, Joined;
      hide Names, Begun;
      JoinedSyncs(members, id, ps);
      AddOrUpdate(id, ps);
      if initialJoinDelayExpired { var completed := MaybeCompleteJoin(); }
    }

    method AddOrUpdate(id: MemberID, ps: seq<Protocol>)
      modifies this`members, this`counts, this`newMemberAdded
      ensures members == Joined(old(members), id, ps)
      ensures newMemberAdded == (old(newMemberAdded) || id !in old(members))
      ensures MembersOk(old(counts), old(members)) && ProtocolsOk(ps) ==>
                (exists p :: AllSupport(old(members), p) && Names(ps, p)) ==>
                MembersOk(counts, members)
    {
      hide MembersOk, AllSupport;
      if id in members {
        UpdateMember(id, ps);
      } else {
        ghost var counts0, ms0 := counts, members;
        AddMember(id, ps);
        if MembersOk(counts0, ms0) && ProtocolsOk(ps) && exists p :: AllSupport(ms0, p) && Names(ps, p) {
          AddKeepsMembersOk(counts0, counts, ms0, id, members[id]);
        }
      }
    }

    /** resetSync: answers the members waiting for assignments and starts the next rebalance. */
    method ResetSync()
      modifies this`state, this`panicked, this`assignments
      ensures assignments == []
      ensures members == map[] ==> panicked && state == old(state)
      ensures members != map[] ==> state == PreRebalance && panicked == old(panicked)
    {
      assignments := [];
      TriggerRebalance();
    }

    method JoinAwaiting(id: MemberID, ps: seq<Protocol>)
      requires Valid() && !panicked && state == AwaitingRebalance
      modifies this
      ensures Valid() && Advances(old(Snap()), Snap())
      ensures old(Sound()) && ProtocolsOk(ps) && (exists p :: AllSupport(old(members), p) && Names(ps, p)) ==> Sound()
      ensures old(members) == map[] ==> panicked
      ensures !panicked ==> members.Keys == old(members).Keys + {id}
      ensures SyncsFrom(old(members), members) && old(results) <= results
      ensures initialJoinDelayExpired == old(initialJoinDelayExpired)
      ensures Still(old(Snap()), Snap()) && (state == Active ==> old(state) == Active)
      ensures !panicked ==> JoinedOk(AwaitingRebalance, old(members), old(leader), old(generationID), id, ps)
      ensures !panicked ==> JoinedRest(old(Snap()), old(members), old(results), id, ps)
      ensures !panicked && id in old(members) && SameInfos(old(members)[id].protocols, ps) ==>
                Snap() == old(Snap()) && JoinResult(id, leader, protocolName, generationID) in results
      ensures !panicked && !(id in old(members) && SameInfos(old(members)[id].protocols, ps)) ==>
                state == PreRebalance && members[id].joining
    {
      hide MembersOk, AllSupport, ProtocolsOk, Agree, Tells, SyncsFrom, Syncs, Answer, AllJoined, Joined, Names;
      hide Begun, AllDescribe;
      SyncsRefl(members);
      JoinedSyncs(members, id, ps);
      if id in members && SameInfos(members[id].protocols, ps) {
        SendJoinResult(id);
        return;
      }
      ResetSync();
      if panicked { return; }
      AddOrUpdate(id, ps);
    }

    /** sendJoinResult: the current state again. */
    method SendJoinResult(id: MemberID)
      requires ResultsOk() && Live(state) && !panicked
      modifies this`results, this`panicked
      ensures ResultsOk() && (panicked <==> !AllDescribe(members, protocolName))
      ensures results
              == if panicked then old(results) else old(results) + [JoinResult(id, leader, protocolName, generationID)]
      ensures MembersOk(counts, members) && AllSupport(members, protocolName) ==> !panicked
    {
      hide MembersOk, AllSupport, AllDescribe, MetaFor;
      var ok, infos := CreateMemberInfos();
      if MembersOk(counts, members) && AllSupport(members, protocolName) { InfosFound(counts, members, protocolName); }
      if !ok {
        panicked := true;
        return;
      }
      results := results + [JoinResult(id, leader, protocolName, generationID)];
    }

    method JoinActive(id: MemberID, ps: seq<Protocol>)
      requires Valid() && !panicked && state == Active
      modifies this
      ensures Valid() && Advances(old(Snap()), Snap())
      ensures !panicked ==> members.Keys == old(members).Keys + {id}
      ensures SyncsFrom(old(members), members) && old(results) <= results
      ensures initialJoinDelayExpired == old(initialJoinDelayExpired)
      ensures Still(old(Snap()), Snap()) && (state == Active ==> old(state) == Active)
      ensures !panicked ==> JoinedOk(Active, old(members), old(leader), old(generationID), id, ps)
      ensures !panicked ==> JoinedRest(old(Snap()), old(members), old(results), id, ps)
      ensures !panicked && id in old(members) && old(leader) != id ==>
                Snap() == old(Snap()) && JoinResult(id, leader, protocolName, generationID) in results
      ensures !(id in old(members) && old(leader) != id) ==> !panicked && state == PreRebalance && members[id].joining
      ensures old(Sound()) && ProtocolsOk(ps) && (exists p :: AllSupport(old(members), p) && Names(ps, p)) ==> Sound()
    {
      hide MembersOk, AllSupport, ProtocolsOk, Agree, Tells, SyncsFrom, Syncs, Answer, AllJoined, Joined, Names;
      hide Begun, AllDescribe;
      SyncsRefl(members);
      JoinedSyncs(members, id, ps);
      if id in members && leader != id {
        SendJoinResult(id);
        return;
      }
      AddOrUpdate(id, ps);
      assert id in members.Keys;
      TriggerRebalance();
    }

    // ----- leaving and timers

    /** The loop of Leave. */
    method RemoveListed(ids: seq<MemberID>) returns (changed: bool, removedLeader: bool)
      modifies this`members, this`counts, this`state, this`assignments
      ensures LeftOut(old(members), ids, members) && (members != map[] ==> old(members) != map[])
      ensures changed <==> members.Keys != old(members).Keys
      ensures removedLeader <==> leader in old(members) && leader !in members
      ensures !changed ==> members == old(members) && counts == old(counts)
      ensures assignments == if changed && members == map[] then [] else old(assignments)
      ensures state == if changed && members == map[] then Empty else old(state)
      ensures MembersOk(old(counts), old(members)) ==> MembersOk(counts, members)
      ensures SyncsFrom(old(members), members) && old(counts).Keys <= counts.Keys
    {
      hide MembersOk;
      changed, removedLeader := false, false;
      for i := 0 to |ids|
        invariant members == old(members) - (set id | id in ids[..i])
        invariant assignments == if changed && members == map[] then [] else old(assignments)
        invariant changed <==> members.Keys != old(members).Keys
        invariant removedLeader <==> leader in old(members) && leader !in members
        invariant !changed ==> members == old(members) && counts == old(counts)
        invariant state == if changed && members == map[] then Empty else old(state)
        invariant MembersOk(old(counts), old(members)) ==> MembersOk(counts, members)
        invariant SyncsFrom(old(members), members) && old(counts).Keys <= counts.Keys
      {
        assert ids[..i + 1] == ids[..i] + [ids[i]];
        var removed := RemoveMember(ids[i]);
        if removed {
          assert ids[i] in old(members).Keys;
          if ids[i] == leader { removedLeader := true; }
          changed := true;
        }
      }
      assert ids[..|ids|] == ids;
    }

    method Leave(ids: seq<MemberID>)
      requires Valid() && !panicked
      modifies this
      ensures Valid() && Advances(old(Snap()), Snap())
      ensures old(Sound()) ==> Sound()
      ensures LeftOut(old(members), ids, members) && newMemberAdded == old(newMemberAdded) && !panicked
      ensures Succeeds(old(leader), old(members), leader, members)
      ensures assignments == AssignmentsLeft(old(assignments), old(leader), old(members), members)
      ensures generationID == old(generationID) && protocolName == old(protocolName)
      ensures initialJoinDelayExpired == old(initialJoinDelayExpired)
      ensures SyncsFrom(old(members), members) && results == old(results) && old(counts).Keys <= counts.Keys
      ensures Still(old(Snap()), Snap()) && (state == Active ==> old(state) == Active)
      ensures members == map[] && old(members) != map[] ==> state == Empty
      ensures members.Keys == old(members).Keys ==> Snap() == old(Snap())
      ensures members.Keys != old(members).Keys && members != map[] ==> state == PreRebalance
    {
      hide MembersOk, AllSupport, Agree, Tells, Without, LeftOut, SyncsFrom;
      var changed, removedLeader := RemoveListed(ids);
      if changed {
        if |members| > 0 { RebalanceRest(removedLeader); } else { state := Empty; }
      }
    }

    /** Members are gone from an established or joining group: a new leader if need be, then rebalance. */
    method RebalanceRest(removedLeader: bool)
      requires PastOk() && !panicked && members != map[]
      modifies this`leader, this`assignments, this`state, this`panicked
      ensures Valid() && !panicked && state == PreRebalance
      ensures if removedLeader then leader in members && assignments == []
              else leader == old(leader) && assignments == old(assignments)
      ensures MembersOk(counts, members) && (old(leader) in members || removedLeader) ==> Sound()
    {
      hide MembersOk, AllSupport, Agree, Tells;
      if removedLeader {
        leader := ChooseNewLeader();
        assignments := [];
      }
      TriggerRebalance();
    }

    /** handleJoinTimeout: members that did not rejoin in time are out; the rest begin the next generation. */
    method HandleJoinTimeout()
      requires Valid() && !panicked
      modifies this
      ensures Valid() && Advances(old(Snap()), Snap())
      ensures old(Sound()) ==> Sound()
      ensures SyncsFrom(old(members), members) && old(results) <= results
      ensures Still(old(Snap()), Snap()) && (state == Active ==> old(state) == Active)
      ensures newMemberAdded == old(newMemberAdded) && initialJoinDelayExpired == old(initialJoinDelayExpired)
      ensures old(state) != PreRebalance ==>
                Snap() == old(Snap()) && members == old(members) && results == old(results)
      ensures old(state) == PreRebalance ==>
                var rest := JoinedInTime(old(members));
                && generationID == old(generationID) + 1 && Succeeds(old(leader), old(members), leader, rest)
                && assignments == AssignmentsLeft(old(assignments), old(leader), old(members), rest)
                && if rest == map[]
                   then members == rest && state == Empty && !panicked && protocolName == old(protocolName)
                        && results == old(results)
                   else Begun(counts, rest, leader, protocolName, generationID, old(results), panicked, members,
                              results)
      ensures old(state) == PreRebalance && !panicked && members != map[] ==>
                state == AwaitingRebalance && Answered(members, results, leader, protocolName, generationID)
    {
      hide MembersOk, AllSupport, Agree, Tells, Without, SyncsFrom, Syncs, Answered, Begun, JoinedInTime, Succeeds;
      hide AssignmentsLeft, LateToJoin;
      SyncsRefl(members);
      NewGeneration(results, generationID, generationID + 1, leader, protocolName);
      if state != PreRebalance { return; }
      var late := LateToJoin(members);
      RemoveMembers(late);
      RestJoined(old(members), late, members);
      LeftBehind(old(assignments), leader, old(members), members);
      if |members| == 0 {
        state := Empty;
        generationID := generationID + 1;
        return;
      }
      assert members != map[];
      ghost var left := members;
      BeginGeneration(leader in late);
      LeftWith(old(leader), old(members), leader, left);
      SyncsTrans(old(members), left, members);
    }

    method BeginGeneration(removedLeader: bool)
      requires ResultsOk() && !panicked && members != map[] && state == PreRebalance
      modifies this
      ensures Valid() && generationID == old(generationID) + 1 && members.Keys == old(members).Keys
      ensures SyncsFrom(old(members), members) && old(results) <= results
      ensures Still(old(Snap()), Snap()) && (state == Active ==> old(state) == Active)
      ensures !panicked ==> state == AwaitingRebalance && Answered(members, results, leader, protocolName, generationID)
      ensures if removedLeader then leader in members && assignments == []
              else leader == old(leader) && assignments == old(assignments)
      ensures Begun(counts, old(members), leader, protocolName, generationID, old(results), panicked, members, results)
      ensures newMemberAdded == old(newMemberAdded) && initialJoinDelayExpired == old(initialJoinDelayExpired)
      ensures counts == old(counts)
      ensures MembersOk(old(counts), old(members)) && (old(leader) in old(members) || removedLeader) ==> Sound()
    {
      hide MembersOk, AllSupport, Agree, Tells, Begun, Answered, Answer, SyncsFrom;
      SyncsRefl(members);
      if removedLeader {
        leader := ChooseNewLeader();
        assignments := [];
      }
      NewGeneration(results, generationID, generationID + 1, leader, protocolName);
      generationID := generationID + 1;
      SendJoinResults();
      EmptyKeys(members, old(members));
    }

    /** handleSyncTimeout: members that did not sync in time are out; the rest must rejoin. */
    method HandleSyncTimeout(genID: int)
      requires Valid() && !panicked
      modifies this
      ensures Valid() && Advances(old(Snap()), Snap())
      ensures old(Sound()) ==> Sound()
      ensures SyncsFrom(old(members), members) && results == old(results)
      ensures Still(old(Snap()), Snap()) && (state == Active ==> old(state) == Active)
      ensures !panicked && newMemberAdded == old(newMemberAdded)
      ensures generationID == old(generationID) && protocolName == old(protocolName)
      ensures initialJoinDelayExpired == old(initialJoinDelayExpired)
      ensures !(old(state) == AwaitingRebalance && genID == old(generationID)) ==>
                Snap() == old(Snap()) && members == old(members)
      ensures old(state) == AwaitingRebalance && genID == old(generationID) ==>
                && members == SyncedInTime(old(members)) && Succeeds(old(leader), old(members), leader, members)
                && assignments == AssignmentsLeft(old(assignments), old(leader), old(members), members)
                && (members != map[] ==> state == PreRebalance)
                && (members == map[] && old(members) != map[] ==> state == Empty)
      ensures old(members) == map[] ==> Snap() == old(Snap())
    {
      hide MembersOk, AllSupport, Agree, Tells, Without, SyncsFrom, Syncs, SyncedInTime, Succeeds, AssignmentsLeft;
      hide LateToSync;
      SyncsRefl(members);
      if state != AwaitingRebalance || genID != generationID { return; }
      var late := LateToSync(members);
      var removedLeader := leader in late;
      RemoveMembers(late);
      RestSynced(old(members), late, members);
      LeftBehind(old(assignments), leader, old(members), members);
      if |members| > 0 {
        assert members != map[];
        RebalanceRest(removedLeader);
        LeftWith(old(leader), old(members), leader, members);
      }
    }

    /**
     initialJoinTimerExpired; remains says that the delay may be extended for a member that came in it.
     The code does not look at the state. What the group promises survives unless the timer ends on an
     empty group, which then waits for the assignments of no members.
     */
    method InitialJoinTimerExpired(remains: bool)
      requires Valid() && !panicked
      modifies this
      ensures Valid() && Advances(old(Snap()), Snap())
      ensures old(Sound()) ==> (Sound() <==> old(state) != Empty || (old(newMemberAdded) && remains))
      ensures old(newMemberAdded) && remains ==> Snap() == old(Snap()).(newMemberAdded := false)
      ensures !(old(newMemberAdded) && remains) ==> initialJoinDelayExpired
      ensures !(old(newMemberAdded) && remains) ==>
                (generationID == old(generationID) + 1 <==> AllJoined(old(members)))
      ensures SyncsFrom(old(members), members) && old(results) <= results && counts == old(counts)
      ensures leader == old(leader)
      ensures Still(old(Snap()), Snap()) && (state == Active ==> old(state) == Active)
      ensures !newMemberAdded && assignments == old(assignments)
      ensures old(newMemberAdded) && remains ==>
                members == old(members) && results == old(results)
                && initialJoinDelayExpired == old(initialJoinDelayExpired)
      ensures !(old(newMemberAdded) && remains) && AllJoined(old(members)) ==>
                Begun(counts, old(members), leader, protocolName, generationID, old(results), panicked, members,
                      results)
      ensures !(old(newMemberAdded) && remains) && !AllJoined(old(members)) ==>
                Snap() == old(Snap()).(newMemberAdded := false) && members == old(members) && results == old(results)
      ensures !(old(newMemberAdded) && remains) && AllJoined(old(members)) && !panicked ==>
                state == AwaitingRebalance && members == Answer(old(members))
      ensures old(state) == Empty && !(old(newMemberAdded) && remains) ==>
                state == AwaitingRebalance && members == map[] && !panicked
    {
      hide MembersOk, AllSupport, Agree, Tells, Begun;
      SyncsRefl(members);
      if newMemberAdded {
        newMemberAdded := false;
        if remains { return; }
      }
      initialJoinDelayExpired := true;
      var completed := MaybeCompleteJoin();
      EmptyKeys(members, old(members));
    }

    /** Sync, with the members named in the leader's assignments. */
    method Sync(id: MemberID, genID: int, assignees: seq<MemberID>)
      requires Valid() && !panicked
      modifies this
      ensures Valid() && Advances(old(Snap()), Snap())
      ensures panicked <==> SyncPanics(old(Snap()), id, genID, assignees)
      ensures old(Sound()) && !panicked ==> Sound()
      ensures panicked ==> state == old(state)
      ensures !panicked ==> if Heard(old(Snap()), id, genID) then SyncEffect(old(Snap()), id, assignees, Snap())
                            else Snap() == old(Snap())
      ensures SyncedBy(old(members), id, generationID, members) && results == old(results)
      ensures generationID == old(generationID) && initialJoinDelayExpired == old(initialJoinDelayExpired)
      ensures members.Keys == old(members).Keys
      ensures Heard(old(Snap()), id, genID) ==> OnlyHanded(old(members), id, generationID, assignments, members)
      ensures Heard(old(Snap()), id, genID) && !panicked ==>
                var ms := old(members)[id := old(members)[id].(sync := Some(generationID))];
                members == if state == Active then HandedOut(ms, assignments) else ms
    {
      hide MembersOk, AllSupport, Agree, Tells, BadAssignments, Syncs, OthersWait, SyncEffect, OnlyHanded, SyncedBy;
      SyncUnheard(counts, protocolName, members, id, generationID, assignments);
      if genID != generationID { return; }
      if state == AwaitingRebalance { RecordSync(id, assignees); }
      else if state == Empty { panicked := true; }
    }

    method RecordSync(id: MemberID, assignees: seq<MemberID>)
      requires state == AwaitingRebalance && !panicked
      modifies this`members, this`state, this`panicked, this`assignments
      ensures members.Keys == old(members).Keys && Live(state) && SyncedBy(old(members), id, generationID, members)
      ensures panicked ==> state == AwaitingRebalance
      ensures panicked <==> SyncPanics(old(Snap()), id, generationID, assignees)
      ensures id !in old(members) ==> Snap() == old(Snap())
      ensures id in old(members) && !panicked ==> SyncEffect(old(Snap()), id, assignees, Snap())
      ensures state == Active ==> id in old(members) && OthersWait(old(Snap()).syncs, id)
      ensures OnlyHanded(old(members), id, generationID, assignments, members)
      ensures id in old(members) && !panicked ==>
                var ms := old(members)[id := old(members)[id].(sync := Some(generationID))];
                members == if state == Active then HandedOut(ms, assignments) else ms
      ensures KeepsProtocols(counts, protocolName, old(members), members)
    {
      hide MembersOk, AllSupport, BadAssignments, Syncs, OthersWait, SyncsFrom, SyncedBy, SyncPanics, SyncEffect;
      hide OnlyHanded, KeepsProtocols;
      SyncUnheard(counts, protocolName, members, id, generationID, assignments);
      PanicsIff(Snap(), id, assignees);
      if id !in members { return; }
      StoreSync(id, assignees);
      ghost var ms := members;
      if forall m | m in members :: members[m].sync.Some? { CompleteSync(); }
      SyncHeard(counts, protocolName, old(members), ms, members, id, generationID, assignments);
      HandedNone(ms);
      if !panicked { EffectFrom(old(Snap()), Snap(), id, assignees); }
    }

    method StoreSync(id: MemberID, assignees: seq<MemberID>)
      requires id in members
      modifies this`members, this`assignments
      ensures members == old(members)[id := old(members)[id].(sync := Some(generationID))]
      ensures assignments == if leader == id then assignees else old(assignments)
      ensures Syncs(members) == Syncs(old(members))[id := Some(generationID)] && members.Keys == old(members).Keys
      ensures (forall m | m in members :: members[m].sync.Some?) <==> OthersWait(Syncs(old(members)), id)
    {
      hide Syncs, OthersWait;
      members := members[id := members[id].(sync := Some(generationID))];
      if leader == id { assignments := assignees; }
      SyncsOf(old(members), members, id, generationID);
    }

    /** completeSync: hands out the assignments; one for no member, or a second for one, is a panic. */
    method CompleteSync()
      requires state == AwaitingRebalance && !panicked && forall m | m in members :: members[m].sync.Some?
      modifies this`members, this`state, this`panicked
      ensures Handed(old(members), assignments, members) && state == if panicked then AwaitingRebalance else Active
      ensures !panicked ==> members == HandedOut(old(members), assignments)
      ensures panicked <==> BadAssignments(members.Keys, assignments)
    {
      for i := 0 to |assignments|
        invariant state == AwaitingRebalance && !panicked && members.Keys == old(members).Keys
        invariant forall m | m in members ::
                    members[m] == if m in assignments[..i] then old(members)[m].(sync := None) else old(members)[m]
        invariant forall k | 0 <= k < i :: assignments[k] in members && assignments[k] !in assignments[..k]
      {
        var m := assignments[i];
        if m !in members || !members[m].sync.Some? {
          panicked := true;
          return;
        }
        members := members[m := members[m].(sync := None)];
        assert assignments[..i + 1] == assignments[..i] + [m];
      }
      assert assignments[..|assignments|] == assignments;
      state := Active;
    }

    method SessionTimeoutExpired(id: MemberID)
      requires Valid() && !panicked
      modifies this
      ensures Valid() && Advances(old(Snap()), Snap())
      ensures old(Sound()) ==> Sound()
      ensures SyncsFrom(old(members), members) && old(results) <= results
      ensures Still(old(Snap()), Snap()) && (state == Active ==> old(state) == Active)
      ensures !Expires(old(members), id) ==>
                Snap() == old(Snap()) && members == old(members) && results == old(results)
      ensures initialJoinDelayExpired == old(initialJoinDelayExpired) && newMemberAdded == old(newMemberAdded)
      ensures Expires(old(members), id) ==>
                var rest := old(members) - {id};
                && (if old(leader) != id then leader == old(leader)
                    else if rest == map[] then leader == "" else leader in rest)
                && assignments == (if rest == map[] then [] else old(assignments))
                && ExpiredTo(old(state), rest, old(generationID), old(protocolName), old(results))
    {
      hide MembersOk, AllSupport, Agree, Tells, Begun, Answered, Answer;
      if id !in members { return; }
      if !members[id].isNew && (members[id].joining || members[id].sync.Some?) { return; }
      var removed := RemoveMember(id);
      if leader == id { leader := ChooseNewLeader(); }
      if |members| == 0 {
        state := Empty;
        return;
      }
      assert members != map[];
      AfterExpiry();
    }

    /** Where rest remain of a group: a join they complete begins a generation, and an established group rebalances. */
    ghost predicate ExpiredTo(state0: GroupState, rest: Members, gen0: int, protocol0: string,
                              results0: seq<JoinResult>)
      reads this
    {
      var completed := rest != map[] && state0 == PreRebalance && AllJoined(rest);
      && generationID == gen0 + (if completed then 1 else 0)
      && (if completed
          then Begun(counts, rest, leader, protocolName, generationID, results0, panicked, members, results)
          else !panicked && members == rest && protocolName == protocol0 && results == results0)
      && (!panicked ==>
            state == if rest == map[] then Empty
                     else if completed then AwaitingRebalance else if Live(state0) then PreRebalance else state0)
    }

    /** With a member gone, the join may be complete; an established group must rebalance. */
    method AfterExpiry()
      requires PastOk() && !panicked && members != map[] && state != Empty
      modifies this
      ensures Valid() && old(generationID) <= generationID && members.Keys == old(members).Keys
      ensures SyncsFrom(old(members), members) && old(results) <= results
      ensures Still(old(Snap()), Snap()) && (state == Active ==> old(state) == Active)
      ensures generationID == old(generationID) ==> !Live(state)
      ensures leader == old(leader) && assignments == old(assignments) && newMemberAdded == old(newMemberAdded)
      ensures initialJoinDelayExpired == old(initialJoinDelayExpired)
      ensures ExpiredTo(old(state), old(members), old(generationID), old(protocolName), old(results))
      ensures MembersOk(old(counts), old(members)) && old(leader) in old(members) ==> Sound()
    {
      hide MembersOk, AllSupport, Agree, Tells, Begun;
      if state == PreRebalance {
        var completed := MaybeCompleteJoin();
        EmptyKeys(members, old(members));
      } else if Live(state) {
        TriggerRebalance();
      }
    }
  }

  lemma {:induction false} SupportedIff(counts: Counts, ms: Members, p: string)
    requires MembersOk(counts, ms) && ms != map[]
    ensures (p in counts && counts[p] == |ms|) <==> AllSupport(ms, p)
  {
    FullSupport(counts, ms, p);
    var id :| id in ms;
    assert |ms| > 0;
  }

  /** p is in the set, and in the list before any other name in the set. */
  ghost predicate VotesFor(ps: seq<Protocol>, supported: set<string>, p: string) {
    p in supported && exists i | 0 <= i < |ps| :: ps[i].name == p && forall k | 0 <= k < i :: ps[k].name !in supported
  }

  ghost function Voters(ms: Members, supported: set<string>, p: string): set<MemberID> {
    set id | id in ms && VotesFor(ms[id].protocols, supported, p)
  }

  ghost function Supported(counts: Counts, ms: Members): set<string> { set p | p in counts && counts[p] == |ms| }

  lemma {:induction false} VotersAdd(ms: Members, id: MemberID, m: Member, supported: set<string>, p: string)
    requires id !in ms
    ensures |Voters(ms[id := m], supported, p)|
            == |Voters(ms, supported, p)| + if VotesFor(m.protocols, supported, p) then 1 else 0
  {
    assert Voters(ms[id := m], supported, p)
           == Voters(ms, supported, p) + if VotesFor(m.protocols, supported, p) then {id} else {};
  }

  ghost predicate VotesOf(votes: map<string, int>, ms: Members, supported: set<string>) {
    forall p :: |Voters(ms, supported, p)| == if p in votes then votes[p] else 0
  }

  lemma {:induction false} NoVotes(supported: set<string>)
    ensures VotesOf(map[], map[], supported)
  {
  }

  lemma {:induction false} VoteCounted(votes: map<string, int>, ms: Members, id: MemberID, m: Member,
                                       supported: set<string>, v: Option<string>)
    requires VotesOf(votes, ms, supported) && id !in ms
    requires forall p :: v == Some(p) <==> VotesFor(m.protocols, supported, p)
    ensures VotesOf(if v.None? then votes else votes[v.value := if v.value in votes then votes[v.value] + 1 else 1],
              ms[id := m], supported)
  {
    hide VotesFor, Voters;
    forall p ensures |Voters(ms[id := m], supported, p)|
                     == |Voters(ms, supported, p)| + if VotesFor(m.protocols, supported, p) then 1 else 0
    {
      VotersAdd(ms, id, m, supported, p);
    }
  }

  /** A list with a name in the set votes for someone. */
  lemma {:induction false} HasVote(ps: seq<Protocol>, supported: set<string>, p: string, n: nat) returns (q: string)
    requires n <= |ps| && p in supported && exists i | 0 <= i < n :: ps[i].name == p
    ensures VotesFor(ps, supported, q)
    decreases n
  {
    var i :| 0 <= i < n && ps[i].name == p;
    if k :| 0 <= k < i && ps[k].name in supported { q := HasVote(ps, supported, ps[k].name, i); } else { q := p; }
  }

  lemma {:induction false} SomeoneVotes(counts: Counts, ms: Members, supported: set<string>, votes: map<string, int>)
    requires MembersOk(counts, ms) && ms != map[] && (forall p :: p in supported <==> AllSupport(ms, p))
    requires VotesOf(votes, ms, supported)
    ensures votes != map[]
  {
    var p :| AllSupport(ms, p);
    var id :| id in ms;
    var ps := ms[id].protocols;
    var x :| x in ps && x.name == p;
    var i :| 0 <= i < |ps| && ps[i] == x;
    var q := HasVote(ps, supported, p, |ps|);
    assert id in Voters(ms, supported, q);
  }

  lemma {:induction false} MemberProtocolsOk(counts: Counts, ms: Members, id: MemberID)
    requires MembersOk(counts, ms) && id in ms
    ensures ProtocolsOk(ms[id].protocols) && DistinctNames(ms[id].protocols)
  {
  }

  lemma {:induction false} InfosFound(counts: Counts, ms: Members, p: string)
    requires MembersOk(counts, ms) && AllSupport(ms, p)
    ensures AllDescribe(ms, p)
  {
    forall id | id in ms ensures MetaFor(ms[id].protocols, p).Some? { MetaForNamed(ms[id].protocols, p); }
  }

  lemma {:induction false} AllWaiting(ms: Members, waiting: set<MemberID>)
    requires waiting == set id | id in ms && ms[id].joining
    ensures |waiting| == |ms| <==> forall id | id in ms :: ms[id].joining
  {
    assert |ms| == |ms.Keys|;
    if |waiting| == |ms| { SameSize(waiting, ms.Keys); }
    if forall id | id in ms :: ms[id].joining { assert waiting == ms.Keys; }
  }

  lemma {:induction false} EmptyKeys(a: Members, b: Members)
    requires a.Keys == b.Keys
    ensures a == map[] <==> b == map[]
  {
  }

  // ----- runs

  datatype Event =
    | JoinGroup(memberID: MemberID, generated: MemberID, protocols: seq<Protocol>)
    | LeaveGroup(ids: seq<MemberID>)
    | SyncGroup(id: MemberID, genID: int, assignees: seq<MemberID>)
    | JoinTimeout
    | SyncTimeout(genID: int)
    | InitialTimer(remains: bool)
    | SessionTimeout(id: MemberID)

  /** The group became active by this sync, when every other member had a sync completion waiting. */
  ghost predicate ActivatedBy(a: Snapshot, ev: Event) {
    ev.SyncGroup? && Heard(a, ev.id, ev.genID) && OthersWait(a.syncs, ev.id)
  }

  /** What every event does. */
  ghost predicate Moves(a: Snapshot, ev: Event, b: Snapshot) {
    && Advances(a, b) && SyncsMove(a, b)
    && match ev
       case SyncGroup(id, genID, assignees) => SyncMoves(a, id, genID, assignees, b)
       case _ => Still(a, b) && (b.state == Active ==> a.state == Active)
  }

  ghost predicate SyncMoves(a: Snapshot, id: MemberID, genID: int, assignees: seq<MemberID>, b: Snapshot) {
    && (b.panicked <==> SyncPanics(a, id, genID, assignees)) && (b.panicked ==> b.state == a.state)
    && (!b.panicked ==> if Heard(a, id, genID) then SyncEffect(a, id, assignees, b) else b == a)
  }

  /** Within a generation fresh completions stay fresh; a new one has fresh completions only if it has none. */
  ghost predicate SyncsMove(a: Snapshot, b: Snapshot) {
    && (b.generationID == a.generationID && Fresh(a.syncs, a.generationID) ==> Fresh(b.syncs, b.generationID))
    && (b.generationID != a.generationID ==> (Fresh(b.syncs, b.generationID) <==> NoneWaits(b.syncs)))
  }

  lemma {:induction false} FromMove(ms: Members, gen: int, ms': Members, gen': int)
    requires SyncsOk(Syncs(ms), gen) && SyncsFrom(ms, ms') && gen <= gen'
    ensures SyncsOk(Syncs(ms'), gen')
    ensures gen' == gen && Fresh(Syncs(ms), gen) ==> Fresh(Syncs(ms'), gen')
    ensures gen' != gen ==> (Fresh(Syncs(ms'), gen') <==> NoneWaits(Syncs(ms')))
  {
    var a, b := Syncs(ms), Syncs(ms');
    forall id | id in b && b[id].Some? ensures id in a && b[id] == a[id] { assert ms'[id].sync.Some?; }
  }

  lemma {:induction false} SyncMove(ms: Members, gen: int, id: MemberID, ms': Members)
    requires SyncsOk(Syncs(ms), gen) && SyncedBy(ms, id, gen, ms')
    ensures SyncsOk(Syncs(ms'), gen) && (Fresh(Syncs(ms), gen) ==> Fresh(Syncs(ms'), gen))
  {
    var a, b := Syncs(ms), Syncs(ms');
    forall m | m in b && b[m].Some? ensures (m in a && b[m] == a[m]) || b[m] == Some(gen) { assert ms'[m].sync.Some?; }
  }

  /** Clients send distinct protocols with metadata. */
  ghost predicate WellBehaved(ev: Event) { ev.JoinGroup? ==> ProtocolsOk(ev.protocols) }

  /** The initial timer ends on a group without members, or a sync panics. */
  ghost predicate Breaks(a: Snapshot, ev: Event) {
    || (ev.InitialTimer? && a.state == Empty && !(a.newMemberAdded && ev.remains))
    || (ev.SyncGroup? && SyncPanics(a, ev.id, ev.genID, ev.assignees))
  }

  /** A group that has panicked, or will with the next join it accepts. */
  ghost predicate Broken(a: Snapshot) { a.panicked || (a.state == AwaitingRebalance && a.members == {}) }

  ghost predicate SyncsInOrder(g: Group)
    reads g
  {
    SyncsOk(Syncs(g.members), g.generationID)
  }

  /** One event. */
  method Step(g: Group, ev: Event)
    requires g.Valid() && !g.panicked && SyncsInOrder(g)
    modifies g
    ensures g.Valid() && SyncsInOrder(g) && Moves(old(g.Snap()), ev, g.Snap()) && old(g.results) <= g.results
    ensures old(g.Sound()) && WellBehaved(ev) ==> (g.Sound() <==> !Breaks(old(g.Snap()), ev))
    ensures old(g.Sound()) && Breaks(old(g.Snap()), ev) ==> Broken(g.Snap())
    ensures Broken(old(g.Snap())) ==> Broken(g.Snap())
  {
    hide MembersOk, AllSupport, Agree, Tells, SyncsFrom, SyncedBy, SyncsOk, Fresh, NoneWaits, ProtocolsOk, SyncPanics;
    hide SyncEffect, OnlyHanded, Syncs;
    ghost var ms, gen := g.members, g.generationID;
    match ev {
      case JoinGroup(memberID, generated, protocols) => var accepted := g.Join(memberID, generated, protocols);
      case LeaveGroup(ids) => g.Leave(ids);
      case SyncGroup(id, genID, assignees) => g.Sync(id, genID, assignees);
      case JoinTimeout => g.HandleJoinTimeout();
      case SyncTimeout(genID) => g.HandleSyncTimeout(genID);
      case InitialTimer(remains) => g.InitialJoinTimerExpired(remains);
      case SessionTimeout(id) => g.SessionTimeoutExpired(id);
    }
    if ev.SyncGroup? { SyncMove(ms, gen, ev.id, g.members); } else { FromMove(ms, gen, g.members, g.generationID); }
  }

  /** Two moments of a run: generations never go back, and an established one has one group. */
  ghost predicate Fixed(a: Snapshot, b: Snapshot) {
    && a.generationID <= b.generationID
    && (Live(b.state) && a.generationID == b.generationID ==>
          Live(a.state) && a.members == b.members && a.leader == b.leader && a.protocolName == b.protocolName)
  }

  ghost predicate IsRun(snaps: seq<Snapshot>, events: seq<Event>) {
    && 0 < |snaps| <= |events| + 1 && (forall k | 0 <= k < |snaps| - 1 :: !snaps[k].panicked)
    && forall k | 0 <= k < |snaps| - 1 :: Moves(snaps[k], events[k], snaps[k + 1])
  }

  lemma {:induction false} GenerationIsFixed(snaps: seq<Snapshot>, events: seq<Event>, i: nat, j: nat)
    requires IsRun(snaps, events) && i <= j < |snaps|
    ensures Fixed(snaps[i], snaps[j])
  {
    if i < j {
      GenerationIsFixed(snaps, events, i, j - 1);
      assert Moves(snaps[j - 1], events[j - 1], snaps[j]);
    }
  }

  /** In a generation that began with no completion waiting, all that wait were given in it. */
  lemma {:induction false} FreshThroughout(snaps: seq<Snapshot>, events: seq<Event>, i: nat, j: nat)
    requires IsRun(snaps, events) && i <= j < |snaps| && snaps[i].generationID == snaps[j].generationID
    requires Fresh(snaps[i].syncs, snaps[i].generationID)
    ensures Fresh(snaps[j].syncs, snaps[j].generationID)
  {
    if i < j {
      GenerationIsFixed(snaps, events, i, j - 1);
      GenerationIsFixed(snaps, events, j - 1, j);
      FreshThroughout(snaps, events, i, j - 1);
      assert Moves(snaps[j - 1], events[j - 1], snaps[j]);
    }
  }

  /** A completion of an earlier generation. */
  ghost predicate Stale(a: Snapshot, m: MemberID) {
    m in a.syncs && a.syncs[m].Some? && a.syncs[m].value != a.generationID
  }

  /**
   The others can make the group active without m: it has a completion of an earlier generation, there
   are others, and the leader is one of them or has left assignments that can be handed out.
   */
  ghost predicate CanGoWithout(a: Snapshot, m: MemberID) {
    && Stale(a, m) && (exists x :: x in a.members && x != m)
    && ((a.leader in a.members && a.leader != m) || !BadAssignments(a.members, a.assignments))
  }

  /** From j back to i, while m's completion is stale at j nothing has touched it, nor what only m could change. */
  lemma {:induction false} StaleSince(snaps: seq<Snapshot>, events: seq<Event>, i: nat, j: nat, m: MemberID)
    requires IsRun(snaps, events) && i <= j < |snaps| - 1 && snaps[i].generationID == snaps[j].generationID
    requires snaps[j].state == AwaitingRebalance && Stale(snaps[j], m)
    ensures var (a, b) := (snaps[i], snaps[j]);
            && a.state == AwaitingRebalance && a.members == b.members && a.leader == b.leader && Stale(a, m)
            && (a.leader == m || a.leader !in a.members ==> a.assignments == b.assignments)
    decreases j - i
  {
    hide SyncPanics, SyncsMove, OthersWait;
    if i < j {
      GenerationIsFixed(snaps, events, i, i + 1);
      GenerationIsFixed(snaps, events, i + 1, j);
      StaleSince(snaps, events, i + 1, j, m);
      assert Moves(snaps[i], events[i], snaps[i + 1]);
    }
  }

  /**
   At i the group waits for syncs, and it becomes active in the same generation after j. If at i the
   others can go without nobody, then every member has synced in this generation.
   */
  lemma {:induction false} ActiveMeansSynced(snaps: seq<Snapshot>, events: seq<Event>, i: nat, j: nat)
    requires IsRun(snaps, events) && i <= j < |snaps| - 1 && snaps[i].generationID == snaps[j].generationID
    requires forall m :: !CanGoWithout(snaps[i], m)
    requires snaps[j].state == AwaitingRebalance && snaps[j + 1].state == Active
    ensures ActivatedBy(snaps[j], events[j])
    ensures forall m | m in snaps[j].syncs :: m == events[j].id || snaps[j].syncs[m] == Some(snaps[j].generationID)
  {
    hide SyncsMove, BadAssignments;
    assert Moves(snaps[j], events[j], snaps[j + 1]);
    var a, id := snaps[j], events[j].id;
    forall m | m in a.syncs && m != id ensures a.syncs[m] == Some(a.generationID) {
      assert !CanGoWithout(snaps[i], m);
      if Stale(a, m) { StaleSince(snaps, events, i, j, m); }
    }
  }

  /** Those that have no completion waiting. */
  ghost function Missing(syncs: map<MemberID, Option<int>>): set<MemberID> { set m | m in syncs && syncs[m].None? }

  /** A sync without assignments, when those in force can be handed out. */
  method SyncOne(g: Group, id: MemberID)
    requires g.Valid() && !g.panicked && SyncsInOrder(g) && g.state == AwaitingRebalance && id in g.members
    requires g.leader == id || !BadAssignments(g.Snap().members, g.assignments)
    modifies g
    ensures g.Valid() && !g.panicked && SyncsInOrder(g) && Live(g.state) && g.generationID == old(g.generationID)
    ensures Moves(old(g.Snap()), SyncGroup(id, old(g.generationID), []), g.Snap())
    ensures g.members.Keys == old(g.members).Keys && !BadAssignments(g.Snap().members, g.assignments)
    ensures g.state == AwaitingRebalance ==>
              g.Snap().syncs == old(g.Snap()).syncs[id := Some(g.generationID)] && !AllWait(g.Snap().syncs)
  {
    hide MembersOk, AllSupport, Agree, Tells, SyncsMove, BadAssignments, SyncsInOrder, Advances, Syncs;
    NothingBad(g.Snap().members);
    WaitAfter(g.Snap().syncs, id, g.generationID);
    Step(g, SyncGroup(id, g.generationID, []));
  }

  ghost predicate AllWait(syncs: map<MemberID, Option<int>>) { forall m | m in syncs :: syncs[m].Some? }

  lemma {:induction false} WaitAfter(syncs: map<MemberID, Option<int>>, id: MemberID, gen: int)
    ensures AllWait(syncs[id := Some(gen)]) <==> OthersWait(syncs, id)
  {
    var s := syncs[id := Some(gen)];
    if AllWait(s) {
      forall m | m in syncs ensures m == id || syncs[m].Some? { assert m in s; }
    }
  }

  /** A run that has used up its events, with syncs of others than m only. */
  ghost predicate SyncRun(snaps: seq<Snapshot>, events: seq<Event>, m: MemberID) {
    && IsRun(snaps, events) && |snaps| == |events| + 1
    && forall ev | ev in events :: ev.SyncGroup? && ev.id != m
  }

  lemma {:induction false} SyncRunGrows(snaps: seq<Snapshot>, events: seq<Event>, m: MemberID, ev: Event, b: Snapshot)
    requires snaps != [] && SyncRun(snaps, events, m) && ev.SyncGroup? && ev.id != m
    requires Moves(snaps[|events|], ev, b) && !snaps[|events|].panicked
    ensures SyncRun(snaps + [b], events + [ev], m)
  {
    hide Moves;
  }

  /** What holds between the syncs of the others. */
  ghost predicate GoesOn(a: Snapshot, m: MemberID) {
    && m in a.syncs && !BadAssignments(a.members, a.assignments)
    && (a.state == AwaitingRebalance ==> a.syncs[m].Some? && !AllWait(a.syncs))
  }

  /** And if they can go without m, then syncs of the others alone make the group active. */
  method GoWithout(g: Group, m: MemberID) returns (events: seq<Event>, ghost snaps: seq<Snapshot>)
    requires g.Valid() && !g.panicked && SyncsInOrder(g) && g.state == AwaitingRebalance && CanGoWithout(g.Snap(), m)
    modifies g
    ensures SyncRun(snaps, events, m) && snaps[0] == old(g.Snap()) && snaps[|events|] == g.Snap()
    ensures g.state == Active && g.generationID == old(g.generationID) && !g.panicked
  {
    hide MembersOk, AllSupport, Agree, Tells, Moves, BadAssignments, SyncsInOrder, SyncRun;
    events, snaps := [], [g.Snap()];
    NoEvents(g.Snap(), m);
    var x: MemberID;
    if g.leader in g.members && g.leader != m { x := g.leader; } else { x :| x in g.members && x != m; }
    events, snaps := SyncNext(g, m, x, events, snaps);
    while g.state != Active
      invariant SyncRun(snaps, events, m) && |snaps| == |events| + 1 && snaps[0] == old(g.Snap())
      invariant snaps[|events|] == g.Snap() && GoesOn(g.Snap(), m)
      invariant g.Valid() && SyncsInOrder(g) && !g.panicked && g.generationID == old(g.generationID) && Live(g.state)
      decreases if g.state == Active then 0 else 1, |Missing(g.Snap().syncs)|
    {
      var y :| y in g.members && g.members[y].sync.None?;
      OneLess(g.Snap().syncs, y, g.generationID);
      events, snaps := SyncNext(g, m, y, events, snaps);
    }
  }

  lemma {:induction false} NoEvents(a: Snapshot, m: MemberID)
    ensures SyncRun([a], [], m)
  {
  }

  /** One more sync of the run. */
  method SyncNext(g: Group, m: MemberID, id: MemberID, events: seq<Event>, ghost snaps: seq<Snapshot>)
    returns (events': seq<Event>, ghost snaps': seq<Snapshot>)
    requires g.Valid() && !g.panicked && SyncsInOrder(g) && g.state == AwaitingRebalance && id in g.members && id != m
    requires g.leader == id || !BadAssignments(g.Snap().members, g.assignments)
    requires m in g.members && g.members[m].sync.Some?
    requires |snaps| == |events| + 1 && SyncRun(snaps, events, m) && snaps[|events|] == g.Snap()
    modifies g
    ensures g.Valid() && !g.panicked && SyncsInOrder(g) && Live(g.state) && g.generationID == old(g.generationID)
    ensures |snaps'| == |events'| + 1 && SyncRun(snaps', events', m) && snaps'[|events'|] == g.Snap()
    ensures snaps'[0] == snaps[0] && GoesOn(g.Snap(), m)
    ensures g.state == AwaitingRebalance ==> g.Snap().syncs == old(g.Snap()).syncs[id := Some(g.generationID)]
  {
    hide MembersOk, AllSupport, Agree, Tells, Moves, BadAssignments, SyncsInOrder, SyncRun;
    ghost var a := g.Snap();
    var ev := SyncGroup(id, g.generationID, []);
    SyncOne(g, id);
    SyncRunGrows(snaps, events, m, ev, g.Snap());
    events', snaps' := events + [ev], snaps + [g.Snap()];
  }

  lemma {:induction false} OneLess(syncs: map<MemberID, Option<int>>, id: MemberID, gen: int)
    requires id in syncs && syncs[id].None?
    ensures |Missing(syncs[id := Some(gen)])| < |Missing(syncs)|
  {
    assert Missing(syncs[id := Some(gen)]) == Missing(syncs) - {id};
  }

  lemma {:induction false} NothingBad(ids: set<MemberID>)
    ensures !BadAssignments(ids, [])
  {
  }

  /** And only then are completions all of the new generation at its beginning. */
  lemma {:induction false} FreshAtBeginning(snaps: seq<Snapshot>, events: seq<Event>, i: nat)
    requires IsRun(snaps, events) && i < |snaps| - 1 && snaps[i].generationID != snaps[i + 1].generationID
    ensures Fresh(snaps[i + 1].syncs, snaps[i + 1].generationID) <==> NoneWaits(snaps[i + 1].syncs)
  {
    assert Moves(snaps[i], events[i], snaps[i + 1]);
  }

  /**
   A run of a group: any events, up to the first panic. Generations are fixed, and any two answers of
   one generation agree. With well-behaved clients the group is sound at the end if and only if no initial
   timer ended on an empty group and no sync panicked.
   */
  method Run(g: Group, events: seq<Event>) returns (ghost snaps: seq<Snapshot>)
    requires g.Valid() && !g.panicked && SyncsInOrder(g)
    modifies g
    ensures IsRun(snaps, events) && snaps[0] == old(g.Snap()) && snaps[|snaps| - 1] == g.Snap()
    ensures |snaps| <= |events| ==> g.panicked
    ensures forall i, j | 0 <= i <= j < |snaps| :: Fixed(snaps[i], snaps[j])
    ensures old(g.results) <= g.results && Agree(g.results, g.generationID)
    ensures old(g.Sound()) && (forall ev | ev in events :: WellBehaved(ev)) ==>
              (g.Sound() <==> forall k | 0 <= k < |snaps| - 1 :: !Breaks(snaps[k], events[k]))
  {
    hide MembersOk, AllSupport, Agree, Tells, Moves, WellBehaved, Breaks, SyncsInOrder, Fixed;
    snaps := [g.Snap()];
    var n := 0;
    ghost var good := g.Sound() && forall ev | ev in events :: WellBehaved(ev);
    while n < |events| && !g.panicked
      invariant 0 <= n <= |events| && |snaps| == n + 1 && IsRun(snaps, events)
      invariant snaps[0] == old(g.Snap()) && snaps[n] == g.Snap()
      invariant g.Valid() && SyncsInOrder(g) && old(g.results) <= g.results
      invariant good ==> if forall k | 0 <= k < n :: !Breaks(snaps[k], events[k]) then g.Sound() else Broken(g.Snap())
    {
      Step(g, events[n]);
      snaps := snaps + [g.Snap()];
      n := n + 1;
    }
    forall i, j | 0 <= i <= j < |snaps| ensures Fixed(snaps[i], snaps[j]) { GenerationIsFixed(snaps, events, i, j); }
  }

  /**
   One client joins and leaves before the initial delay is over; the timer then breaks the group, and
   the next client to join with the same protocol makes it panic.
   */
  method TimerOnEmptyGroup() returns (g: Group)
    ensures fresh(g) && g.panicked
  {
    g := TimerBreaksGroup();
    var joined := g.Join("", "b", [Protocol("range", Some([]))]);
  }

  method TimerBreaksGroup() returns (g: Group)
    ensures fresh(g) && g.Valid() && !g.panicked && g.state == AwaitingRebalance && g.members == map[] && !g.Sound()
    ensures CountOf(g.counts, "range") == 0 && "range" in g.counts
  {
    g := new Group();
    var ps := [Protocol("range", Some([]))];
    assert ProtocolsOk(ps);
    var joined := g.Join("", "a", ps);
    assert CountOf(g.counts, "range") == 1 by { OneSupporter(g.counts, g.members, "a", "range"); }
    g.Leave(["a"]);
    assert g.members == map[];
    assert CountOf(g.counts, "range") == 0 by { assert Supporters(g.members, "range") == {}; }
    g.InitialJoinTimerExpired(false);
  }

  lemma {:induction false} OneSupporter(counts: Counts, ms: Members, id: MemberID, p: string)
    requires CountsTrue(counts, ms) && ms.Keys == {id} && Names(ms[id].protocols, p)
    ensures CountOf(counts, p) == 1
  {
    assert Supporters(ms, p) == {id};
  }

  /** A member that has left syncs in the generation it knows. */
  method SyncOnEmptyGroup() returns (g: Group)
    ensures fresh(g) && g.panicked
  {
    g := new Group();
    var ps := [Protocol("range", Some([]))];
    assert ProtocolsOk(ps);
    var joined := g.Join("", "a", ps);
    g.Leave(["a"]);
    g.Sync("a", g.generationID, []);
  }

  // ----- a run in which a sync of an earlier generation counts

  const RANGE: seq<Protocol> := [Protocol("range", Some([]))]
  const CHANGED: seq<Protocol> := [Protocol("range", Some([1]))]

  lemma {:induction false} BothNameRange()
    ensures ProtocolsOk(RANGE) && ProtocolsOk(CHANGED) && Names(RANGE, "range") && Names(CHANGED, "range")
    ensures RANGE != CHANGED
  {
    assert RANGE[0].metadata != CHANGED[0].metadata;
    assert RANGE[0] in RANGE && CHANGED[0] in CHANGED;
  }

  /** Two members join and the initial delay ends: generation 1. */
  method TwoMembers() returns (g: Group)
    ensures fresh(g) && g.Valid() && g.Sound() && g.state == AwaitingRebalance && g.generationID == 1 && g.leader == "a"
    ensures g.initialJoinDelayExpired
    ensures g.members == map["a" := Member(RANGE, false, None, false), "b" := Member(RANGE, false, None, false)]
  {
    hide MembersOk, ProtocolsOk, Names, Agree, Tells, SyncsFrom, Begun, Answered, Group.JoinedRest;
    BothNameRange();
    g := new Group();
    var _ := g.Join("a", "", RANGE);
    assert AllSupport(g.members, "range");
    var _ := g.Join("b", "", RANGE);
    assert g.members == map["a" := Member(RANGE, true, None, true), "b" := Member(RANGE, true, None, true)];
    g.InitialJoinTimerExpired(false);
  }

  /** The follower syncs in generation 1. */
  method FollowerSynced() returns (g: Group)
    ensures fresh(g) && g.Valid() && g.Sound() && g.state == AwaitingRebalance && g.generationID == 1 && g.leader == "a"
    ensures g.initialJoinDelayExpired
    ensures g.members == map["a" := Member(RANGE, false, None, false), "b" := Member(RANGE, false, Some(1), false)]
  {
    hide MembersOk, AllSupport, Agree, Tells, SyncedBy;
    g := TwoMembers();
    assert "a" in g.Snap().syncs && g.Snap().syncs["a"].None?;
    g.Sync("b", 1, []);
  }

  /** The leader assigns something to a member that is not there. */
  method SyncWithStranger() returns (g: Group)
    ensures fresh(g) && g.panicked
  {
    hide MembersOk, AllSupport, Agree, Tells, SyncedBy;
    g := FollowerSynced();
    assert ["c"][0] !in {"a", "b"};
    assert BadAssignments({"a", "b"}, ["c"]);
    assert g.Snap().members == {"a", "b"};
    assert OthersWait(g.Snap().syncs, "a");
    g.Sync("a", 1, ["c"]);
  }

  /** The leader comes back with changed metadata. */
  method LeaderRejoined() returns (g: Group)
    ensures fresh(g) && g.Valid() && g.Sound() && g.state == PreRebalance && g.generationID == 1 && g.leader == "a"
    ensures g.initialJoinDelayExpired
    ensures g.members == map["a" := Member(CHANGED, true, None, false), "b" := Member(RANGE, false, Some(1), false)]
  {
    hide MembersOk, ProtocolsOk, Names, Agree, Tells, SyncsFrom, Begun, Answered, Group.JoinedRest;
    BothNameRange();
    g := FollowerSynced();
    assert AllSupport(g.members, "range");
    var _ := g.Join("a", "", CHANGED);
  }

  /** The follower rejoins, and generation 2 begins with its completion of generation 1. */
  method SecondGeneration() returns (g: Group)
    ensures fresh(g) && g.Valid() && g.Sound() && g.state == AwaitingRebalance && g.generationID == 2 && g.leader == "a"
    ensures g.members == map["a" := Member(CHANGED, false, None, false), "b" := Member(RANGE, false, Some(1), false)]
  {
    hide MembersOk, ProtocolsOk, Names, Agree, Tells, SyncsFrom, Begun, Answered, Group.JoinedRest;
    BothNameRange();
    g := LeaderRejoined();
    assert AllSupport(g.members, "range");
    var _ := g.Join("b", "", RANGE);
  }

  /** Only the leader syncs in generation 2, and the group is active. */
  method StaleActivation() returns (g: Group)
    ensures fresh(g) && g.Valid() && !g.panicked && g.state == Active && g.generationID == 2
    ensures g.members.Keys == {"a", "b"} && g.members["b"].sync == Some(1)
  {
    hide MembersOk, Names, Agree, Tells, SyncsFrom, SyncedBy;
    g := SecondGeneration();
    g.Sync("a", 2, []);
  }
}
