/**
 clustmgr/mgr.go, clustmgr/client.go: replicas and leaders of processing groups. When the set of active
 nodes changes, the lowest active node computes a new cluster state from the stored one: replicas on
 nodes that stayed are kept, missing ones go to the least loaded nodes, and groups left without a
 valid leader get one. Replicas report themselves valid under the version they joined at.
 */
module ClusterManager {
  import opened KeyEncoding

  datatype GroupNode = GroupNode(nodeID: nat, leader: bool, valid: bool, joinedVersion: int)

  type GroupState = seq<GroupNode>

  datatype ClusterState = ClusterState(version: int, groupStates: seq<GroupState>)

  type Counts = map<nat, nat>

  function CountOf(m: Counts, n: nat): nat { if n in m then m[n] else 0 }

  // ----- choosing nodes

  ghost predicate Sorted(s: seq<nat>) { forall i, j | 0 <= i < j < |s| :: s[i] < s[j] }

  /** The nodes in ascending order. */
  method NodesToOrderedSlice(nodes: set<nat>) returns (s: seq<nat>)
    ensures Sorted(s) && forall n :: n in s <==> n in nodes
  {
    s := [];
    var rest := nodes;
    while rest != {}
      invariant rest <= nodes && Sorted(s) && (forall n :: n in s <==> n in nodes && n !in rest)
      invariant forall i, n | 0 <= i < |s| && n in rest :: s[i] < n
    {
      var low := Lowest(rest);
      rest := rest - {low};
      s := s + [low];
    }
  }

  method Lowest(nodes: set<nat>) returns (low: nat)
    requires nodes != {}
    ensures low in nodes && forall n | n in nodes :: low <= n
  {
    low :| low in nodes;
    var rest := nodes - {low};
    while rest != {}
      invariant rest <= nodes && low in nodes && forall n | n in nodes && n !in rest :: low <= n
    {
      var n :| n in rest;
      if n < low { low := n; }
      rest := rest - {n};
    }
  }

  /** Lowest count, then lowest id: one result for every replica that computes it. */
  ghost predicate IsChoice(perNode: Counts, available: set<nat>, chosen: nat) {
    chosen in available && forall n | n in available :: Before(perNode, chosen, n)
  }

  method ChooseNode(perNode: Counts, available: set<nat>) returns (chosen: nat)
    requires available != {}
    ensures IsChoice(perNode, available, chosen)
  {
    var slice := NodesToOrderedSlice(available);
    assert slice != [] by {
      var some :| some in available;
      assert some in slice;
    }
    chosen := slice[0];
    for i := 1 to |slice|
      invariant chosen in slice[..i]
      invariant forall k | 0 <= k < i :: Before(perNode, chosen, slice[k])
    {
      if CountOf(perNode, slice[i]) < CountOf(perNode, chosen) { chosen := slice[i]; }
      assert slice[..i + 1] == slice[..i] + [slice[i]];
    }
  }

  /** a comes before b when a node is chosen by these counts. */
  predicate Before(perNode: Counts, a: nat, b: nat) {
    CountOf(perNode, a) < CountOf(perNode, b) || (CountOf(perNode, a) == CountOf(perNode, b) && a <= b)
  }

  lemma {:induction false} ChoiceIsUnique(perNode: Counts, available: set<nat>, a: nat, b: nat)
    requires IsChoice(perNode, available, a) && IsChoice(perNode, available, b)
    ensures a == b
  {
  }

  ghost function Nodes(g: GroupState): set<nat> { set x | x in g :: x.nodeID }

  ghost predicate DistinctNodes(g: GroupState) {
    forall i, j | 0 <= i < j < |g| :: g[i].nodeID != g[j].nodeID
  }

  lemma {:induction false} NodesCount(g: GroupState)
    requires DistinctNodes(g)
    ensures |Nodes(g)| == |g|
  {
    if g != [] {
      var n := |g| - 1;
      NodesCount(g[..n]);
      assert g == g[..n] + [g[n]];
      assert Nodes(g) == Nodes(g[..n]) + {g[n].nodeID};
      assert g[n].nodeID !in Nodes(g[..n]);
    }
  }

  lemma {:induction false} NodesAppend(g: GroupState, x: GroupNode)
    ensures Nodes(g + [x]) == Nodes(g) + {x.nodeID}
  {
    assert forall y :: y in g + [x] <==> y in g || y == x;
  }

  function NewNode(n: nat, version: int): GroupNode { GroupNode(n, false, false, version) }

  /** A count per node that is one higher for the nodes of a set. */
  ghost predicate Raised(before: Counts, after: Counts, nodes: set<nat>) {
    forall n: nat :: CountOf(after, n) == CountOf(before, n) + if n in nodes then 1 else 0
  }

  // ----- balance while choosing

  /** Counts of all nodes are m or m + 1, and if a chosen node is at m then so is every available one. */
  ghost predicate Level(counts: Counts, all: set<nat>, available: set<nat>, m: nat) {
    && (forall n | n in all :: m <= CountOf(counts, n) <= m + 1)
    && ((exists n | n in all - available :: CountOf(counts, n) == m) ==> forall n | n in available ::
      CountOf(counts, n) == m)
  }

  lemma {:induction false} ChoiceKeepsLevel(counts: Counts, all: set<nat>, available: set<nat>, m: nat,
                                            c: nat) returns (m': nat)
    requires Level(counts, all, available, m) && available <= all && IsChoice(counts, available, c)
    ensures Level(counts[c := CountOf(counts, c) + 1], all, available - {c}, m')
  {
    var counts' := counts[c := CountOf(counts, c) + 1];
    if CountOf(counts, c) == m {
      m' := m;
      forall n | n in all - (available - {c}) && CountOf(counts', n) == m
        ensures forall k | k in available - {c} :: CountOf(counts', k) == m
      {
        assert n in all - available && CountOf(counts, n) == m;
      }
    } else {
      m' := m + 1;
      assert forall n | n in available :: CountOf(counts, n) == m + 1;
      forall n | n in all ensures CountOf(counts, n) == m + 1 {
        if n !in available { assert CountOf(counts, n) == m ==> n in all - available; }
      }
    }
  }

  /** group' is group with a new replica on each chosen node. */
  ghost predicate Chose(group: GroupState, group': GroupState, newVersion: int, chosen: set<nat>) {
    && group <= group' && |group'| == |group| + |chosen| && DistinctNodes(group')
    && (forall i | |group| <= i < |group'| :: group'[i] == NewNode(group'[i].nodeID, newVersion))
    && Nodes(group') == Nodes(group) + chosen
  }

  lemma {:induction false} ChoseOne(group: GroupState, group': GroupState, newVersion: int, chosen: set<nat>, c: nat)
    requires Chose(group, group', newVersion, chosen) && c !in Nodes(group) && c !in chosen
    ensures Chose(group, group' + [NewNode(c, newVersion)], newVersion, chosen + {c})
  {
    hide Nodes, DistinctNodes;
    var r := group' + [NewNode(c, newVersion)];
    NodesAppend(group', NewNode(c, newVersion));
    AppendDistinct(group', NewNode(c, newVersion));
    forall i | |group| <= i < |r| ensures r[i] == NewNode(r[i].nodeID, newVersion) {
      if i < |group'| { assert r[i] == group'[i]; }
    }
  }

  /** From a position on, each node of g comes before the available ones that g does not have until then. */
  ghost predicate LeastFirst(perNode: Counts, available: set<nat>, g: GroupState, from: nat) {
    forall i, n | from <= i < |g| && n in available && n !in Nodes(g[..i]) :: Before(perNode, g[i].nodeID, n)
  }

  lemma {:induction false} LeastNext(replicas: Counts, replicas': Counts, available: set<nat>, group: GroupState,
                                     group': GroupState, newVersion: int, chosen: set<nat>, c: nat)
    requires Chose(group, group', newVersion, chosen) && Raised(replicas, replicas', chosen)
    requires LeastFirst(replicas, available, group', |group|) && IsChoice(replicas', available - chosen, c)
    requires Nodes(group) !! available
    ensures LeastFirst(replicas, available, group' + [NewNode(c, newVersion)], |group|)
  {
    hide Nodes, DistinctNodes;
    var r := group' + [NewNode(c, newVersion)];
    forall i, n | |group| <= i < |r| && n in available && n !in Nodes(r[..i]) ensures Before(replicas, r[i].nodeID, n) {
      assert i <= |group'| && r[..i] == group'[..i];
      if i == |group'| {
        assert group'[..i] == group' && n in available - chosen;
      }
    }
  }

  /** chooseNodes: the least loaded available nodes, one at a time, as new replicas. */
  method ChooseNodes(replicas: Counts, numToChoose: nat, available: set<nat>, group: GroupState, newVersion: int,
                     ghost all: set<nat>, ghost m: nat)
    returns (group': GroupState, replicas': Counts, ghost chosen: set<nat>, ghost m': nat)
    requires numToChoose <= |available| && DistinctNodes(group) && Nodes(group) !! available
    requires available <= all
    ensures Chose(group, group', newVersion, chosen) && |chosen| == numToChoose
    ensures chosen <= available && Raised(replicas, replicas', chosen)
    ensures LeastFirst(replicas, available, group', |group|)
    ensures Level(replicas, all, available, m) ==> Level(replicas', all, available - chosen, m')
  {
    hide Chose, Level, IsChoice, Nodes, DistinctNodes, LeastFirst;
    group', replicas', chosen, m' := group, replicas, {}, m;
    NoneYet(replicas, available, group);
    ChoseNone(group, newVersion);
    var rest := available;
    for i := 0 to numToChoose
      invariant rest == available - chosen && chosen <= available && |chosen| == i && |rest| == |available| - i
      invariant Chose(group, group', newVersion, chosen) && Raised(replicas, replicas', chosen)
      invariant LeastFirst(replicas, available, group', |group|)
      invariant Level(replicas, all, available, m) ==> Level(replicas', all, rest, m')
    {
      var c := ChooseNode(replicas', rest);
      ChoiceAvailable(replicas', rest, c);
      ChoseOne(group, group', newVersion, chosen, c);
      LeastNext(replicas, replicas', available, group, group', newVersion, chosen, c);
      if Level(replicas, all, available, m) { m' := ChoiceKeepsLevel(replicas', all, rest, m', c); }
      group' := group' + [NewNode(c, newVersion)];
      replicas' := replicas'[c := CountOf(replicas', c) + 1];
      assert available - (chosen + {c}) == rest - {c};
      chosen := chosen + {c};
      rest := rest - {c};
    }
  }

  lemma {:induction false} NoneYet(replicas: Counts, available: set<nat>, group: GroupState)
    ensures LeastFirst(replicas, available, group, |group|)
  {
  }

  lemma {:induction false} ChoseNone(group: GroupState, newVersion: int)
    requires DistinctNodes(group)
    ensures Chose(group, group, newVersion, {})
  {
  }

  lemma {:induction false} ChoiceAvailable(perNode: Counts, available: set<nat>, c: nat)
    requires IsChoice(perNode, available, c)
    ensures c in available
  {
  }

  lemma {:induction false} AppendDistinct(g: GroupState, x: GroupNode)
    requires DistinctNodes(g) && x.nodeID !in Nodes(g)
    ensures DistinctNodes(g + [x])
  {
    forall i | 0 <= i < |g| ensures g[i].nodeID != x.nodeID { assert g[i] in g; }
  }

  // ----- one group

  /** Active nodes, each with whether it was added (or bounced) since the stored state. */
  type Active = map<nat, bool>

  predicate Stays(x: GroupNode, active: Active) { x.nodeID in active && !active[x.nodeID] }

  /** The replicas of the previous state that are kept, in their order. */
  function Preserved(prev: GroupState, active: Active): GroupState {
    if prev == [] then []
    else
      var n := |prev| - 1;
      Preserved(prev[..n], active) + if Stays(prev[n], active) then [prev[n]] else []
  }

  lemma {:induction false} PreservedMembers(prev: GroupState, active: Active)
    ensures forall x :: x in Preserved(prev, active) <==> x in prev && Stays(x, active)
    ensures |Preserved(prev, active)| <= |prev|
  {
    if prev != [] {
      var n := |prev| - 1;
      PreservedMembers(prev[..n], active);
      assert prev == prev[..n] + [prev[n]];
    }
  }

  lemma {:induction false} PreservedDistinct(prev: GroupState, active: Active)
    requires DistinctNodes(prev)
    ensures DistinctNodes(Preserved(prev, active)) && Nodes(Preserved(prev, active)) <= active.Keys
  {
    if prev != [] {
      var n := |prev| - 1;
      PreservedDistinct(prev[..n], active);
      PreservedMembers(prev[..n], active);
      var p := Preserved(prev[..n], active);
      if Stays(prev[n], active) {
        forall x | x in p ensures x.nodeID != prev[n].nodeID { var k :| 0 <= k < n && prev[k] == x; }
        AppendDistinct(p, prev[n]);
        NodesAppend(p, prev[n]);
      }
    }
  }

  /** A group before leaders are chosen: the kept replicas, then new ones up to the number wanted. */
  ghost predicate Filled(prev: GroupState, g: GroupState, active: Active, numReplicas: nat, version: int) {
    var p := Preserved(prev, active);
    && p <= g && |g| == numReplicas && DistinctNodes(g) && Nodes(g) <= active.Keys
    && (forall i | |p| <= i < |g| :: g[i] == NewNode(g[i].nodeID, version))
  }

  predicate LeadsValidly(x: GroupNode) { x.leader && x.valid }

  ghost function ValidLeaders(g: GroupState): set<nat> { set x | x in g && LeadsValidly(x) :: x.nodeID }

  ghost predicate KeepsLeader(prev: GroupState, active: Active) {
    exists x | x in Preserved(prev, active) :: LeadsValidly(x)
  }

  /** The first loop of calculateGroupStates, for one group. */
  method FillGroup(prev: GroupState, active: Active, numReplicas: nat, version: int, replicas: Counts, leaders: Counts,
                   ghost m: nat)
    returns (g: GroupState, replicas': Counts, leaders': Counts, chooseLeader: bool, ghost m': nat)
    requires DistinctNodes(prev) && numReplicas <= |active.Keys|
    requires (|prev| <= numReplicas || numReplicas == |active.Keys|)
    ensures Filled(prev, g, active, numReplicas, version) && Raised(replicas, replicas', Nodes(g))
    ensures LeastFirst(replicas, active.Keys, g, |Preserved(prev, active)|)
    ensures chooseLeader <==> !KeepsLeader(prev, active)
    ensures Raised(leaders, leaders', ValidLeaders(Preserved(prev, active)))
    ensures prev == [] && Level(replicas, active.Keys, active.Keys, m) ==>
              Level(replicas', active.Keys, active.Keys, m')
  {
    hide Level, Chose, Raised, Nodes, DistinctNodes, LeastFirst, ValidLeaders;
    ghost var p := Preserved(prev, active);
    PreservedDistinct(prev, active);
    PreservedMembers(prev, active);
    NodesCount(p);
    g, replicas', leaders', chooseLeader := KeepReplicas(prev, active, replicas, leaders);
    SubsetSize(Nodes(p), active.Keys);
    m' := m;
    if |g| < numReplicas {
      var available := Unchosen(active, g);
      SplitSize(active.Keys, Nodes(g), available);
      ghost var chosen;
      ghost var r0 := replicas';
      g, replicas', chosen, m' := ChooseNodes(replicas', numReplicas - |g|, available, g, version, active.Keys, m);
      ChoseFilled(prev, p, g, active, numReplicas, version, chosen);
      RaisedTwice(replicas, r0, replicas', Nodes(p), chosen);
      LeastAmongAll(replicas, r0, active.Keys, p, g);
      if prev == [] {
        NoneKept(active, replicas, r0);
        ghost var before := Level(replicas, active.Keys, active.Keys, m);
        if before {
          SameCountsLevel(replicas, r0, active.Keys, active.Keys, m);
          LevelAnew(replicas', active.Keys, available - chosen, m');
        }
      }
    } else {
      JustKept(prev, p, active, numReplicas, version);
      NoneYet(replicas, active.Keys, g);
      if prev == [] {
        NoneKept(active, replicas, replicas');
        if Level(replicas, active.Keys, active.Keys, m) {
          SameCountsLevel(replicas, replicas', active.Keys, active.Keys, m);
        }
      }
    }
  }

  /** Counting the kept replicas changes nothing between the other nodes. */
  lemma {:induction false} LeastAmongAll(r: Counts, r': Counts, all: set<nat>, p: GroupState, g: GroupState)
    requires Raised(r, r', Nodes(p)) && LeastFirst(r', all - Nodes(p), g, |p|) && p <= g && DistinctNodes(g)
    ensures LeastFirst(r, all, g, |p|)
  {
    hide Before, Nodes;
    forall i, n | |p| <= i < |g| && n in all && n !in Nodes(g[..i]) ensures Before(r, g[i].nodeID, n) {
      PrefixNodes(g, p, i);
      assert n in all - Nodes(p) && Before(r', g[i].nodeID, n);
      SameBefore(r, r', Nodes(p), g[i].nodeID, n);
    }
  }

  lemma {:induction false} PrefixNodes(g: GroupState, p: GroupState, i: nat)
    requires p <= g && |p| <= i < |g| && DistinctNodes(g)
    ensures Nodes(p) <= Nodes(g[..i]) && g[i].nodeID !in Nodes(p)
  {
    assert forall x | x in p :: x in g[..i];
    forall x | x in p ensures x.nodeID != g[i].nodeID {
      var k :| 0 <= k < |p| && p[k] == x;
      assert g[k] == x;
    }
  }

  lemma {:induction false} SameBefore(r: Counts, r': Counts, nodes: set<nat>, a: nat, b: nat)
    requires Raised(r, r', nodes) && a !in nodes && b !in nodes
    ensures Before(r, a, b) <==> Before(r', a, b)
  {
  }

  lemma {:induction false} NoneKept(active: Active, r: Counts, r': Counts)
    requires Raised(r, r', Nodes(Preserved([], active)))
    ensures Raised(r, r', {}) && Nodes(Preserved([], active)) == {}
  {
  }

  lemma {:induction false} SameCountsLevel(r: Counts, r': Counts, all: set<nat>, available: set<nat>, m: nat)
    requires Raised(r, r', {}) && Level(r, all, available, m)
    ensures Level(r', all, available, m)
  {
  }

  /** A new group starts with every node available. */
  lemma {:induction false} LevelAnew(r: Counts, all: set<nat>, available: set<nat>, m: nat)
    requires Level(r, all, available, m)
    ensures Level(r, all, all, m)
  {
  }

  lemma {:induction false} RaisedTwice(a: Counts, b: Counts, c: Counts, x: set<nat>, y: set<nat>)
    requires Raised(a, b, x) && Raised(b, c, y) && x !! y
    ensures Raised(a, c, x + y)
  {
  }

  lemma {:induction false} SubsetSize(a: set<nat>, b: set<nat>)
    requires a <= b
    ensures |a| <= |b|
  {
    assert b == a + (b - a);
  }

  lemma {:induction false} SplitSize(all: set<nat>, a: set<nat>, b: set<nat>)
    requires a <= all && b == all - a
    ensures |b| == |all| - |a|
  {
    assert all == a + b;
  }

  lemma {:induction false} ChoseFilled(prev: GroupState, p: GroupState, g: GroupState, active: Active, numReplicas: nat,
                                       version: int, chosen: set<nat>)
    requires p == Preserved(prev, active) && Chose(p, g, version, chosen) && Nodes(p) <= active.Keys
    requires chosen <= active.Keys
    requires |p| + |chosen| == numReplicas
    ensures Filled(prev, g, active, numReplicas, version) && Nodes(g) == Nodes(p) + chosen
  {
  }

  lemma {:induction false} JustKept(prev: GroupState, p: GroupState, active: Active, numReplicas: nat, version: int)
    requires p == Preserved(prev, active) && DistinctNodes(p) && Nodes(p) <= active.Keys && |p| == numReplicas
    ensures Filled(prev, p, active, numReplicas, version)
  {
  }

  method Unchosen(active: Active, g: GroupState) returns (available: set<nat>)
    ensures available == active.Keys - Nodes(g)
  {
    available := active.Keys;
    assert Nodes(g[..0]) == {};
    for i := 0 to |g|
      invariant available == active.Keys - Nodes(g[..i])
    {
      assert g[..i + 1] == g[..i] + [g[i]];
      NodesAppend(g[..i], g[i]);
      available := available - {g[i].nodeID};
    }
    assert g[..|g|] == g;
  }

  /** The loop over the previous replicas: keep those whose node stayed, and note a valid leader among them. */
  method KeepReplicas(prev: GroupState, active: Active, replicas: Counts, leaders: Counts)
    returns (g: GroupState, replicas': Counts, leaders': Counts, chooseLeader: bool)
    requires DistinctNodes(prev)
    ensures g == Preserved(prev, active) && Raised(replicas, replicas', Nodes(g))
    ensures chooseLeader <==> !KeepsLeader(prev, active)
    ensures Raised(leaders, leaders', ValidLeaders(g))
  {
    hide DistinctNodes, LeadsValidly, ValidLeaders;
    NoValidLeaders();
    g, replicas', leaders', chooseLeader := [], replicas, leaders, true;
    assert prev[..0] == [];
    for i := 0 to |prev|
      invariant g == Preserved(prev[..i], active) && Raised(replicas, replicas', Nodes(g))
      invariant chooseLeader <==> forall x | x in g :: !LeadsValidly(x)
      invariant Raised(leaders, leaders', ValidLeaders(g))
    {
      var x := prev[i];
      assert prev[..i + 1][..i] == prev[..i];
      if x.nodeID in active && !active[x.nodeID] {
        KeptIsNew(prev, active, i);
        NodesAppend(g, x);
        assert forall y :: y in g + [x] <==> y in g || y == x;
        LeadersAppend(g, x);
        g := g + [x];
        replicas' := replicas'[x.nodeID := CountOf(replicas', x.nodeID) + 1];
        if LeadsValidly(x) {
          leaders' := leaders'[x.nodeID := CountOf(leaders', x.nodeID) + 1];
          chooseLeader := false;
        }
      }
    }
    assert prev[..|prev|] == prev;
  }

  lemma {:induction false} NoValidLeaders()
    ensures ValidLeaders([]) == {}
  {
  }

  lemma {:induction false} LeadersAppend(g: GroupState, x: GroupNode)
    ensures ValidLeaders(g) <= Nodes(g)
    ensures ValidLeaders(g + [x]) == ValidLeaders(g) + if LeadsValidly(x) then {x.nodeID} else {}
  {
    assert forall y :: y in g + [x] <==> y in g || y == x;
  }

  lemma {:induction false} KeptIsNew(prev: GroupState, active: Active, i: nat)
    requires DistinctNodes(prev) && i < |prev|
    ensures prev[i].nodeID !in Nodes(Preserved(prev[..i], active))
  {
    PreservedMembers(prev[..i], active);
    forall x | x in Preserved(prev[..i], active) ensures x.nodeID != prev[i].nodeID {
      var k :| 0 <= k < i && prev[k] == x;
    }
  }

  // ----- leaders

  function WithLeader(g: GroupState, leader: nat): (r: GroupState)
    ensures |r| == |g|
    ensures forall i | 0 <= i < |r| ::
              r[i] == g[i].(leader := g[i].nodeID == leader, valid := g[i].valid || g[i].nodeID == leader)
  {
    seq(|g|, i requires 0 <= i < |g| =>
      g[i].(leader := g[i].nodeID == leader, valid := g[i].valid || g[i].nodeID == leader))
  }

  /** Who may lead: valid replicas, or anyone where there is none. */
  ghost function Candidates(g: GroupState, allowInvalid: bool): set<nat> {
    set x | x in g && (allowInvalid || x.valid) :: x.nodeID
  }

  method ChooseLeaderNode(leaders: Counts, g: GroupState, allowInvalid: bool)
    returns (g': GroupState, leaders': Counts, leader: nat)
    requires Candidates(g, allowInvalid) != {}
    ensures IsChoice(leaders, Candidates(g, allowInvalid), leader) && g' == WithLeader(g, leader)
    ensures leaders' == leaders[leader := CountOf(leaders, leader) + 1]
  {
    hide IsChoice;
    var available: set<nat> := {};
    for i := 0 to |g|
      invariant available == Candidates(g[..i], allowInvalid)
    {
      assert g[..i + 1] == g[..i] + [g[i]];
      assert forall x :: x in g[..i + 1] <==> x in g[..i] || x == g[i];
      if allowInvalid || g[i].valid { available := available + {g[i].nodeID}; }
    }
    assert g[..|g|] == g;
    leader := ChooseNode(leaders, available);
    g' := g;
    for i := 0 to |g|
      invariant |g'| == |g| && (forall k | i <= k < |g| :: g'[k] == g[k])
      invariant forall k | 0 <= k < i ::
                  g'[k] == g[k].(leader := g[k].nodeID == leader, valid := g[k].valid || g[k].nodeID == leader)
    {
      if g'[i].nodeID == leader { g' := g'[i := g'[i].(leader := true, valid := true)]; }
      else { g' := g'[i := g'[i].(leader := false)]; }
    }
    leaders' := leaders[leader := CountOf(leaders, leader) + 1];
  }

  // ----- all groups

  predicate HasValid(g: GroupState) { exists x | x in g :: x.valid }

  /** A kept valid leader stays; otherwise one of the candidates leads. */
  ghost predicate Led(prev: GroupState, base: GroupState, g: GroupState, active: Active) {
    if KeepsLeader(prev, active) then g == base
    else exists l :: l in Candidates(base, !HasValid(base)) && g == WithLeader(base, l)
  }

  ghost predicate Assigned(prev: GroupState, g: GroupState, active: Active, numReplicas: nat, version: int) {
    exists base :: Filled(prev, base, active, numReplicas, version) && Led(prev, base, g, active)
  }

  function NumReplicas(active: Active, maxReplicas: nat): nat {
    if |active.Keys| > maxReplicas then maxReplicas else |active.Keys|
  }

  function PrevGroup(curr: Option<ClusterState>, numGroups: nat, i: nat): GroupState
    requires i < numGroups
  {
    if curr.Some? && |curr.value.groupStates| == numGroups then curr.value.groupStates[i] else []
  }

  ghost function ReplicaCount(groups: seq<GroupState>, n: nat): nat {
    if groups == [] then 0
    else ReplicaCount(groups[..|groups| - 1], n) + if n in Nodes(groups[|groups| - 1]) then 1 else 0
  }

  ghost predicate Leads(g: GroupState, n: nat) { exists x | x in g :: x.nodeID == n && x.leader }

  ghost function LeaderCount(groups: seq<GroupState>, n: nat): nat {
    if groups == [] then 0
    else LeaderCount(groups[..|groups| - 1], n) + if Leads(groups[|groups| - 1], n) then 1 else 0
  }

  /** How many of the first i groups keep node n as their valid leader. */
  ghost function KeptCount(curr: Option<ClusterState>, numGroups: nat, active: Active, i: nat, n: nat): nat
    requires i <= numGroups
  {
    if i == 0 then 0
    else
      KeptCount(curr, numGroups, active, i - 1, n)
      + if n in ValidLeaders(Preserved(PrevGroup(curr, numGroups, i - 1), active)) then 1 else 0
  }

  /** How many of the groups that keep no leader were given n. */
  ghost function GivenCount(curr: Option<ClusterState>, numGroups: nat, active: Active, groups: seq<GroupState>,
                            n: nat): nat
    requires |groups| <= numGroups
  {
    if groups == [] then 0
    else
      var i := |groups| - 1;
      GivenCount(curr, numGroups, active, groups[..i], n)
      + if !KeepsLeader(PrevGroup(curr, numGroups, i), active) && Leads(groups[i], n) then 1 else 0
  }

  /** The groups n leads when these have been given leaders: all it keeps, and those it was given. */
  ghost function Load(curr: Option<ClusterState>, numGroups: nat, active: Active, groups: seq<GroupState>, n: nat): nat
    requires |groups| <= numGroups
  {
    KeptCount(curr, numGroups, active, numGroups, n) + GivenCount(curr, numGroups, active, groups, n)
  }

  ghost predicate LeastLoaded(curr: Option<ClusterState>, numGroups: nat, active: Active, groups: seq<GroupState>,
                              candidates: set<nat>, l: nat)
    requires |groups| <= numGroups
  {
    l in candidates && forall n | n in candidates ::
        var a, b := Load(curr, numGroups, active, groups, l), Load(curr, numGroups, active, groups, n);
        a < b || (a == b && l <= n)
  }

  /** A kept valid leader stays; otherwise the candidate leads that leads the fewest groups. */
  ghost predicate LedFairly(curr: Option<ClusterState>, numGroups: nat, active: Active, groups: seq<GroupState>,
                            base: GroupState, g: GroupState)
    requires |groups| < numGroups
  {
    if KeepsLeader(PrevGroup(curr, numGroups, |groups|), active) then g == base
    else exists l :: LeastLoaded(curr, numGroups, active, groups, Candidates(base, !HasValid(base)), l)
                     && g == WithLeader(base, l)
  }

  /** New replicas are on the nodes with the fewest replicas so far. */
  ghost predicate FilledFairly(groups: seq<GroupState>, active: Active, g: GroupState, from: nat) {
    forall i, n | from <= i < |g| && n in active && n !in Nodes(g[..i]) :: LighterBy(groups, g[i].nodeID, n)
  }

  ghost predicate LighterBy(groups: seq<GroupState>, a: nat, b: nat) {
    ReplicaCount(groups, a) < ReplicaCount(groups, b) || (ReplicaCount(groups, a) == ReplicaCount(groups, b) && a <= b)
  }

  ghost predicate CountsReplicas(counts: Counts, groups: seq<GroupState>) {
    forall n: nat :: CountOf(counts, n) == ReplicaCount(groups, n)
  }

  ghost predicate CountsLeaders(counts: Counts, groups: seq<GroupState>) {
    forall n: nat :: CountOf(counts, n) == LeaderCount(groups, n)
  }

  ghost predicate StateUsable(curr: Option<ClusterState>, maxReplicas: nat) {
    curr.Some? ==> forall g | g in curr.value.groupStates :: DistinctNodes(g) && |g| <= maxReplicas
  }

  ghost predicate AllFilled(curr: Option<ClusterState>, numGroups: nat, bases: seq<GroupState>, needs: seq<bool>,
                            active: Active,
                            numReplicas: nat, version: int) {
    && |bases| == |needs| <= numGroups
    && forall i | 0 <= i < |bases| ::
         && Filled(PrevGroup(curr, numGroups, i), bases[i], active, numReplicas, version)
         && FilledFairly(bases[..i], active, bases[i], |Preserved(PrevGroup(curr, numGroups, i), active)|)
         && (needs[i] <==> !KeepsLeader(PrevGroup(curr, numGroups, i), active))
  }

  ghost predicate AllLed(curr: Option<ClusterState>, numGroups: nat, bases: seq<GroupState>, groups: seq<GroupState>,
                         active: Active) {
    && |groups| <= |bases| <= numGroups
    && forall i | 0 <= i < |groups| :: LedFairly(curr, numGroups, active, groups[..i], bases[i], groups[i])
  }

  lemma {:induction false} LevelBalanced(counts: Counts, active: Active, m: nat)
    requires Level(counts, active.Keys, active.Keys, m)
    ensures forall a, b | a in active && b in active :: CountOf(counts, a) <= CountOf(counts, b) + 1
  {
  }

  /** Whether no replica that holds data was lost: every group keeps its leader or another valid replica. */
  ghost predicate NothingLost(curr: Option<ClusterState>, numGroups: nat, active: Active) {
    forall i | 0 <= i < numGroups :: SomeValidKept(curr, numGroups, active, i)
  }

  ghost predicate SomeValidKept(curr: Option<ClusterState>, numGroups: nat, active: Active, i: nat)
    requires i < numGroups
  {
    exists x | x in Preserved(PrevGroup(curr, numGroups, i), active) :: x.valid
  }

  ghost predicate NoPrevious(curr: Option<ClusterState>) { curr.None? || curr.value.groupStates == [] }

  /** The first loop: fill every group. */
  method FillGroups(curr: Option<ClusterState>, active: Active, numGroups: nat, numReplicas: nat, version: int)
    returns (bases: seq<GroupState>, needs: seq<bool>, replicas: Counts, leaders: Counts)
    requires numReplicas <= |active.Keys|
    requires curr.Some? ==>
               forall g | g in curr.value.groupStates :: DistinctNodes(g)
                 && (|g| <= numReplicas || numReplicas == |active.Keys|)
    ensures |bases| == numGroups && AllFilled(curr, numGroups, bases, needs, active, numReplicas, version)
    ensures CountsReplicas(replicas, bases)
    ensures forall n: nat :: CountOf(leaders, n) == KeptCount(curr, numGroups, active, numGroups, n)
    ensures curr.None? ==> forall a, b | a in active && b in active :: CountOf(replicas, a) <= CountOf(replicas, b) + 1
  {
    hide Filled, Level, KeepsLeader, DistinctNodes, Raised, FilledFairly, LeastFirst, ValidLeaders, Preserved;
    bases, needs, replicas, leaders := [], [], map[], map[];
    ghost var m := 0;
    LevelStart(active.Keys);
    for i := 0 to numGroups
      invariant |bases| == i && AllFilled(curr, numGroups, bases, needs, active, numReplicas, version)
      invariant CountsReplicas(replicas, bases)
      invariant forall n: nat :: CountOf(leaders, n) == KeptCount(curr, numGroups, active, i, n)
      invariant curr.None? ==> Level(replicas, active.Keys, active.Keys, m)
    {
      var prev := if curr.Some? && |curr.value.groupStates| == numGroups then curr.value.groupStates[i] else [];
      EmptyDistinct();
      var g, need;
      ghost var r0, l0 := replicas, leaders;
      g, replicas, leaders, need, m := FillGroup(prev, active, numReplicas, version, replicas, leaders, m);
      CountRaised(r0, replicas, bases, g);
      KeptRaised(curr, numGroups, active, i, l0, leaders);
      FairFrom(r0, bases, active, g, |Preserved(prev, active)|);
      FilledMore(curr, numGroups, bases, needs, active, numReplicas, version, g, need);
      bases, needs := bases + [g], needs + [need];
    }
    if curr.None? { LevelBalanced(replicas, active, m); }
  }

  lemma {:induction false} KeptRaised(curr: Option<ClusterState>, numGroups: nat, active: Active, i: nat, l: Counts,
                                      l': Counts)
    requires i < numGroups && forall n: nat :: CountOf(l, n) == KeptCount(curr, numGroups, active, i, n)
    requires Raised(l, l', ValidLeaders(Preserved(PrevGroup(curr, numGroups, i), active)))
    ensures forall n: nat :: CountOf(l', n) == KeptCount(curr, numGroups, active, i + 1, n)
  {
    hide ValidLeaders, Preserved;
  }

  lemma {:induction false} FairFrom(r: Counts, groups: seq<GroupState>, active: Active, g: GroupState, from: nat)
    requires CountsReplicas(r, groups) && LeastFirst(r, active.Keys, g, from)
    ensures FilledFairly(groups, active, g, from)
  {
    hide Nodes, ReplicaCount;
    forall i, n | from <= i < |g| && n in active && n !in Nodes(g[..i]) ensures LighterBy(groups, g[i].nodeID, n) {
      assert n in active.Keys && Before(r, g[i].nodeID, n);
    }
  }

  lemma {:induction false} FilledMore(curr: Option<ClusterState>, numGroups: nat, bases: seq<GroupState>,
                                      needs: seq<bool>, active: Active, numReplicas: nat, version: int, g: GroupState,
                                      need: bool)
    requires AllFilled(curr, numGroups, bases, needs, active, numReplicas, version) && |bases| < numGroups
    requires var prev := PrevGroup(curr, numGroups, |bases|);
             && Filled(prev, g, active, numReplicas, version) && (need <==> !KeepsLeader(prev, active))
             && FilledFairly(bases, active, g, |Preserved(prev, active)|)
    ensures AllFilled(curr, numGroups, bases + [g], needs + [need], active, numReplicas, version)
  {
    hide Filled, FilledFairly, KeepsLeader, Preserved;
    var bases' := bases + [g];
    assert forall i | 0 <= i <= |bases| :: bases'[..i] == bases[..i];
    assert bases[..|bases|] == bases;
  }

  lemma {:induction false} EmptyDistinct()
    ensures DistinctNodes([])
  {
  }

  lemma {:induction false} LevelStart(all: set<nat>)
    ensures Level(map[], all, all, 0)
  {
  }

  lemma {:induction false} CountRaised(r: Counts, r': Counts, groups: seq<GroupState>, g: GroupState)
    requires CountsReplicas(r, groups) && Raised(r, r', Nodes(g))
    ensures CountsReplicas(r', groups + [g])
  {
    assert (groups + [g])[..|groups|] == groups;
  }

  /** The second loop: leaders for the groups that need one. */
  method ChooseLeaders(curr: Option<ClusterState>, active: Active, numGroups: nat, numReplicas: nat, version: int,
                       bases: seq<GroupState>, needs: seq<bool>, leaders: Counts)
    returns (validCluster: bool, groups: seq<GroupState>)
    requires numReplicas >= 1 && |bases| == numGroups
    requires AllFilled(curr, numGroups, bases, needs, active, numReplicas, version)
    requires forall n: nat :: CountOf(leaders, n) == KeptCount(curr, numGroups, active, numGroups, n)
    ensures |groups| == numGroups && AllLed(curr, numGroups, bases, groups, active)
    ensures validCluster <==> NoPrevious(curr) || NothingLost(curr, numGroups, active)
    ensures curr.None? && numReplicas == |active.Keys| ==>
              forall a, b | a in active && b in active :: LeaderCount(groups, a) <= LeaderCount(groups, b) + 1
  {
    hide Filled, Level, KeepsLeader, WithLeader, Candidates, IsChoice, HasValid, LedFairly, LeastLoaded, FilledFairly;
    hide KeptCount;
    groups, validCluster := [], true;
    var counts := leaders;
    ghost var m := 0;
    if curr.None? { StartLevel(curr, numGroups, active, leaders); }
    for i := 0 to numGroups
      invariant |groups| == i && AllLed(curr, numGroups, bases, groups, active)
      invariant forall n: nat :: CountOf(counts, n) == Load(curr, numGroups, active, groups, n)
      invariant validCluster <==> NoPrevious(curr) || forall k | 0 <= k < i :: !needs[k] || HasValid(bases[k])
      invariant curr.None? && numReplicas == |active.Keys| ==>
                  CountsLeaders(counts, groups) && Level(counts, active.Keys, active.Keys, m)
    {
      ghost var prev := PrevGroup(curr, numGroups, i);
      if needs[i] {
        var allowInvalid := true;
        if curr.Some? && curr.value.groupStates != [] {
          allowInvalid := !HasValid(bases[i]);
          if allowInvalid { validCluster := false; }
        } else {
          FreshInvalid(prev, bases[i], active, numReplicas, version);
        }
        SomeCandidate(prev, bases[i], active, numReplicas, version);
        var g, leader;
        ghost var before := counts;
        g, counts, leader := ChooseLeaderNode(counts, bases[i], allowInvalid);
        ChoiceAvailable(before, Candidates(bases[i], allowInvalid), leader);
        FairChoice(curr, numGroups, active, groups, bases[i], before, leader);
        CandidateNode(bases[i], allowInvalid, leader);
        GivenMore(curr, numGroups, active, groups, bases[i], before, leader);
        if curr.None? && numReplicas == |active.Keys| {
          AllCandidates(prev, bases[i], active, numReplicas, version);
          LeaderCounted(before, groups, bases[i], leader);
          m := ChoiceKeepsLevel(before, active.Keys, active.Keys, m, leader);
          LevelAnew(counts, active.Keys, active.Keys - {leader}, m);
        }
        LedMore(curr, numGroups, bases, groups, active, g);
        groups := groups + [g];
      } else {
        KeptNotFresh(curr, numGroups, i, active);
        KeepsIt(curr, numGroups, active, groups, bases[i]);
        LedMore(curr, numGroups, bases, groups, active, bases[i]);
        groups := groups + [bases[i]];
      }
    }
    AllValid(curr, numGroups, bases, needs, active, numReplicas, version);
    if curr.None? && numReplicas == |active.Keys| { LevelBalanced(counts, active, m); }
  }

  lemma {:induction false} StartLevel(curr: Option<ClusterState>, numGroups: nat, active: Active, leaders: Counts)
    requires curr.None? && forall n: nat :: CountOf(leaders, n) == KeptCount(curr, numGroups, active, numGroups, n)
    ensures Level(leaders, active.Keys, active.Keys, 0) && CountsLeaders(leaders, [])
  {
    hide KeptCount;
    forall n: nat ensures CountOf(leaders, n) == 0 { NothingToKeep(curr, numGroups, active, numGroups, n); }
  }

  lemma {:induction false} NothingToKeep(curr: Option<ClusterState>, numGroups: nat, active: Active, i: nat, n: nat)
    requires curr.None? && i <= numGroups
    ensures KeptCount(curr, numGroups, active, i, n) == 0
  {
    if i > 0 { NothingToKeep(curr, numGroups, active, i - 1, n); }
  }

  lemma {:induction false} FairChoice(curr: Option<ClusterState>, numGroups: nat, active: Active,
                                      groups: seq<GroupState>, base: GroupState, counts: Counts, l: nat)
    requires |groups| < numGroups && !KeepsLeader(PrevGroup(curr, numGroups, |groups|), active)
    requires forall n: nat :: CountOf(counts, n) == Load(curr, numGroups, active, groups, n)
    requires IsChoice(counts, Candidates(base, !HasValid(base)), l)
    ensures LedFairly(curr, numGroups, active, groups, base, WithLeader(base, l))
  {
    hide Candidates, HasValid, Load, KeepsLeader, WithLeader;
    var cs := Candidates(base, !HasValid(base));
    forall n | n in cs
      ensures var a, b := Load(curr, numGroups, active, groups, l), Load(curr, numGroups, active, groups, n);
              a < b || (a == b && l <= n)
    {
      assert Before(counts, l, n);
    }
    assert LeastLoaded(curr, numGroups, active, groups, cs, l);
  }

  lemma {:induction false} CandidateNode(g: GroupState, allowInvalid: bool, n: nat)
    requires n in Candidates(g, allowInvalid)
    ensures n in Nodes(g)
  {
  }

  lemma {:induction false} GivenMore(curr: Option<ClusterState>, numGroups: nat, active: Active,
                                     groups: seq<GroupState>, base: GroupState, counts: Counts, l: nat)
    requires |groups| < numGroups && !KeepsLeader(PrevGroup(curr, numGroups, |groups|), active) && l in Nodes(base)
    requires forall n: nat :: CountOf(counts, n) == Load(curr, numGroups, active, groups, n)
    ensures forall n: nat :: CountOf(counts[l := CountOf(counts, l) + 1], n)
              == Load(curr, numGroups, active, groups + [WithLeader(base, l)], n)
  {
    hide KeptCount, KeepsLeader, Leads, WithLeader, Nodes;
    var groups' := groups + [WithLeader(base, l)];
    assert groups'[..|groups|] == groups;
    forall n: nat ensures CountOf(counts[l := CountOf(counts, l) + 1], n) == Load(curr, numGroups, active, groups', n) {
      LeadsOnly(base, l, n);
      assert GivenCount(curr, numGroups, active, groups', n)
             == GivenCount(curr, numGroups, active, groups, n) + if n == l then 1 else 0;
      assert CountOf(counts, n) == Load(curr, numGroups, active, groups, n);
    }
  }

  lemma {:induction false} KeepsIt(curr: Option<ClusterState>, numGroups: nat, active: Active, groups: seq<GroupState>,
                                   g: GroupState)
    requires |groups| < numGroups && KeepsLeader(PrevGroup(curr, numGroups, |groups|), active)
    ensures LedFairly(curr, numGroups, active, groups, g, g)
    ensures forall n: nat ::
              Load(curr, numGroups, active, groups + [g], n) == Load(curr, numGroups, active, groups, n)
  {
    hide KeptCount, KeepsLeader, Leads;
    assert (groups + [g])[..|groups|] == groups;
  }

  lemma {:induction false} LedMore(curr: Option<ClusterState>, numGroups: nat, bases: seq<GroupState>,
                                   groups: seq<GroupState>, active: Active, g: GroupState)
    requires AllLed(curr, numGroups, bases, groups, active) && |groups| < |bases|
    requires LedFairly(curr, numGroups, active, groups, bases[|groups|], g)
    ensures AllLed(curr, numGroups, bases, groups + [g], active)
  {
    hide LedFairly;
    var groups' := groups + [g];
    assert forall i | 0 <= i <= |groups| :: groups'[..i] == groups[..i];
    assert groups[..|groups|] == groups;
  }

  lemma {:induction false} KeptNotFresh(curr: Option<ClusterState>, numGroups: nat, i: nat, active: Active)
    requires i < numGroups && KeepsLeader(PrevGroup(curr, numGroups, i), active)
    ensures curr.Some? && curr.value.groupStates != []
  {
  }

  lemma {:induction false} FreshInvalid(prev: GroupState, base: GroupState, active: Active, numReplicas: nat,
                                        version: int)
    requires Filled(prev, base, active, numReplicas, version)
    ensures prev == [] ==> !HasValid(base)
    ensures HasValid(base) <==> exists x | x in Preserved(prev, active) :: x.valid
  {
    var p := Preserved(prev, active);
    assert forall i | 0 <= i < |p| :: base[i] == p[i];
    if x :| x in p && x.valid { assert x in base; }
    if x :| x in base && x.valid {
      var i :| 0 <= i < |base| && base[i] == x;
      assert i < |p|;
      assert p[i] in p;
    }
  }

  lemma {:induction false} SomeCandidate(prev: GroupState, base: GroupState, active: Active, numReplicas: nat,
                                         version: int)
    requires Filled(prev, base, active, numReplicas, version) && numReplicas >= 1
    ensures Candidates(base, true) != {} && Candidates(base, !HasValid(base)) != {}
  {
    assert base[0] in base && base[0].nodeID in Candidates(base, true);
    if x :| x in base && x.valid { assert x.nodeID in Candidates(base, false); }
  }

  /** When every active node has a replica, every active node is a candidate of a fresh group. */
  lemma {:induction false} AllCandidates(prev: GroupState, base: GroupState, active: Active, numReplicas: nat,
                                         version: int)
    requires Filled(prev, base, active, numReplicas, version) && numReplicas == |active.Keys|
    ensures Candidates(base, true) == active.Keys == Nodes(base)
  {
    NodesCount(base);
    FullSubset(Nodes(base), active.Keys);
    assert Candidates(base, true) == Nodes(base);
  }

  lemma {:induction false} FullSubset(a: set<nat>, b: set<nat>)
    requires a <= b && |a| == |b|
    ensures a == b
  {
    if a != b {
      var x: nat :| x in b && x !in a;
      SubsetSize(a + {x}, b);
    }
  }

  lemma {:induction false} LeaderCounted(counts: Counts, groups: seq<GroupState>, base: GroupState, leader: nat)
    requires CountsLeaders(counts, groups) && leader in Nodes(base)
    ensures CountsLeaders(counts[leader := CountOf(counts, leader) + 1], groups + [WithLeader(base, leader)])
  {
    var g := WithLeader(base, leader);
    assert (groups + [g])[..|groups|] == groups;
    forall n: nat ensures CountOf(counts[leader := CountOf(counts, leader) + 1], n) == LeaderCount(groups + [g], n) {
      hide Leads;
      LeadsOnly(base, leader, n);
    }
  }

  lemma {:induction false} LeadsOnly(base: GroupState, leader: nat, n: nat)
    requires leader in Nodes(base)
    ensures Leads(WithLeader(base, leader), n) <==> n == leader
  {
    var g := WithLeader(base, leader);
    var x :| x in base && x.nodeID == leader;
    var i :| 0 <= i < |base| && base[i] == x;
    assert g[i] in g && g[i].leader && g[i].nodeID == leader;
  }

  lemma {:induction false} AllValid(curr: Option<ClusterState>, numGroups: nat, bases: seq<GroupState>,
                                    needs: seq<bool>, active: Active,
                                    numReplicas: nat, version: int)
    requires |bases| == numGroups && AllFilled(curr, numGroups, bases, needs, active, numReplicas, version)
    ensures (forall k | 0 <= k < numGroups :: !needs[k] || HasValid(bases[k])) <==> NothingLost(curr, numGroups, active)
  {
    hide Filled, HasValid, KeepsLeader;
    forall k | 0 <= k < numGroups
      ensures (!needs[k] || HasValid(bases[k])) <==> SomeValidKept(curr, numGroups, active, k)
    {
      var prev := PrevGroup(curr, numGroups, k);
      FreshInvalid(prev, bases[k], active, numReplicas, version);
      LeaderIsValid(prev, active);
    }
  }

  lemma {:induction false} LeaderIsValid(prev: GroupState, active: Active)
    ensures KeepsLeader(prev, active) ==> exists x | x in Preserved(prev, active) :: x.valid
  {
  }

  /** Groups are filled one after the other, and then led one after the other, each by what the earlier ones took. */
  ghost predicate Computed(curr: Option<ClusterState>, active: Active, numGroups: nat, numReplicas: nat, version: int,
                           groups: seq<GroupState>) {
    exists bases, needs ::
      && |bases| == |groups| == numGroups && AllFilled(curr, numGroups, bases, needs, active, numReplicas, version)
      && AllLed(curr, numGroups, bases, groups, active)
  }

  /** There is one such state: every node that computes it gets the same. */
  lemma {:induction false} ComputedOnce(curr: Option<ClusterState>, active: Active, numGroups: nat, numReplicas: nat,
                                        version: int, groups: seq<GroupState>, groups': seq<GroupState>)
    requires Computed(curr, active, numGroups, numReplicas, version, groups)
    requires Computed(curr, active, numGroups, numReplicas, version, groups')
    ensures groups == groups'
  {
    hide AllFilled, AllLed;
    var a, na :| && |a| == |groups| == numGroups && AllFilled(curr, numGroups, a, na, active, numReplicas, version)
                 && AllLed(curr, numGroups, a, groups, active);
    var b, nb :| && |b| == |groups'| == numGroups && AllFilled(curr, numGroups, b, nb, active, numReplicas, version)
                 && AllLed(curr, numGroups, b, groups', active);
    FilledOnce(curr, numGroups, a, na, b, nb, active, numReplicas, version, numGroups);
    assert a[..numGroups] == a && b[..numGroups] == b;
    LedOnce(curr, numGroups, a, groups, groups', active, numGroups);
    assert groups[..numGroups] == groups && groups'[..numGroups] == groups';
  }

  lemma {:induction false} FilledOnce(curr: Option<ClusterState>, numGroups: nat, a: seq<GroupState>, na: seq<bool>,
                                      b: seq<GroupState>, nb: seq<bool>, active: Active, numReplicas: nat, version: int,
                                      n: nat)
    requires n <= numGroups == |a| == |b| && AllFilled(curr, numGroups, a, na, active, numReplicas, version)
    requires AllFilled(curr, numGroups, b, nb, active, numReplicas, version)
    ensures a[..n] == b[..n]
  {
    if n > 0 {
      hide Filled, FilledFairly, KeepsLeader;
      var k := n - 1;
      FilledOnce(curr, numGroups, a, na, b, nb, active, numReplicas, version, k);
      FilledLength(curr, numGroups, active, numReplicas, version, k, a[k], b[k]);
      SameFill(PrevGroup(curr, numGroups, k), a[..k], active, numReplicas, version, a[k], b[k], numReplicas);
      assert a[k][..numReplicas] == a[k] && b[k][..numReplicas] == b[k];
      assert a[..n] == a[..k] + [a[k]] && b[..n] == b[..k] + [b[k]];
    }
  }

  lemma {:induction false} FilledLength(curr: Option<ClusterState>, numGroups: nat, active: Active, numReplicas: nat,
                                        version: int, k: nat, g: GroupState, g': GroupState)
    requires k < numGroups && Filled(PrevGroup(curr, numGroups, k), g, active, numReplicas, version)
    requires Filled(PrevGroup(curr, numGroups, k), g', active, numReplicas, version)
    ensures |g| == |g'| == numReplicas
  {
  }

  lemma {:induction false} SameFill(prev: GroupState, groups: seq<GroupState>, active: Active, numReplicas: nat,
                                    version: int, g: GroupState, g': GroupState, n: nat)
    requires Filled(prev, g, active, numReplicas, version) && Filled(prev, g', active, numReplicas, version)
    requires FilledFairly(groups, active, g, |Preserved(prev, active)|)
    requires FilledFairly(groups, active, g', |Preserved(prev, active)|)
    requires n <= numReplicas == |g| == |g'|
    ensures g[..n] == g'[..n]
  {
    if n > 0 {
      hide Filled, FilledFairly, Preserved;
      var k := n - 1;
      SameFill(prev, groups, active, numReplicas, version, g, g', k);
      SameNext(prev, groups, active, numReplicas, version, g, g', k);
      assert g[..n] == g[..k] + [g[k]] && g'[..n] == g'[..k] + [g'[k]];
    }
  }

  lemma {:induction false} SameNext(prev: GroupState, groups: seq<GroupState>, active: Active, numReplicas: nat,
                                    version: int, g: GroupState, g': GroupState, k: nat)
    requires Filled(prev, g, active, numReplicas, version) && Filled(prev, g', active, numReplicas, version)
    requires FilledFairly(groups, active, g, |Preserved(prev, active)|)
    requires FilledFairly(groups, active, g', |Preserved(prev, active)|)
    requires k < |g| == |g'| && g[..k] == g'[..k]
    ensures g[k] == g'[k]
  {
    hide Preserved, Nodes, ReplicaCount;
    if k >= |Preserved(prev, active)| {
      NextNode(g, k);
      NextNode(g', k);
      assert LighterBy(groups, g[k].nodeID, g'[k].nodeID);
      assert LighterBy(groups, g'[k].nodeID, g[k].nodeID);
    } else {
      assert g[k] == Preserved(prev, active)[k] == g'[k];
    }
  }

  lemma {:induction false} NextNode(g: GroupState, k: nat)
    requires k < |g| && DistinctNodes(g)
    ensures g[k].nodeID in Nodes(g) && g[k].nodeID !in Nodes(g[..k])
  {
    assert g[k] in g;
  }

  lemma {:induction false} LedOnce(curr: Option<ClusterState>, numGroups: nat, bases: seq<GroupState>,
                                   groups: seq<GroupState>, groups': seq<GroupState>, active: Active, n: nat)
    requires n <= numGroups == |bases| == |groups| == |groups'|
    requires AllLed(curr, numGroups, bases, groups, active) && AllLed(curr, numGroups, bases, groups', active)
    ensures groups[..n] == groups'[..n]
  {
    hide AllLed, LedFairly;
    if n > 0 {
      var k := n - 1;
      LedOnce(curr, numGroups, bases, groups, groups', active, k);
      LedAt(curr, numGroups, bases, groups, active, k);
      LedAt(curr, numGroups, bases, groups', active, k);
      SameLeader(curr, numGroups, active, groups[..k], bases[k], groups[k], groups'[k]);
      assert groups[..n] == groups[..k] + [groups[k]] && groups'[..n] == groups'[..k] + [groups'[k]];
    }
  }

  lemma {:induction false} LedAt(curr: Option<ClusterState>, numGroups: nat, bases: seq<GroupState>,
                                 groups: seq<GroupState>, active: Active, k: nat)
    requires AllLed(curr, numGroups, bases, groups, active) && k < |groups|
    ensures LedFairly(curr, numGroups, active, groups[..k], bases[k], groups[k])
  {
    hide LedFairly;
  }

  lemma {:induction false} SameLeader(curr: Option<ClusterState>, numGroups: nat, active: Active,
                                      groups: seq<GroupState>, base: GroupState, g: GroupState, g': GroupState)
    requires |groups| < numGroups && LedFairly(curr, numGroups, active, groups, base, g)
    requires LedFairly(curr, numGroups, active, groups, base, g')
    ensures g == g'
  {
    hide KeepsLeader, Candidates, HasValid, WithLeader, Load;
  }

  /**
   calculateGroupStates. From an empty state replica counts of active nodes differ by at most one,
   and leader counts too when every active node holds a replica of every group.
   */
  method CalculateGroupStates(curr: Option<ClusterState>, active: Active, numGroups: nat, maxReplicas: nat,
                              newVersion: int)
    returns (validCluster: bool, groups: seq<GroupState>)
    requires active != map[] && maxReplicas >= 1 && StateUsable(curr, maxReplicas)
    ensures |groups| == numGroups
    ensures forall i | 0 <= i < numGroups ::
              Assigned(PrevGroup(curr, numGroups, i), groups[i], active, NumReplicas(active, maxReplicas), newVersion)
    ensures Computed(curr, active, numGroups, NumReplicas(active, maxReplicas), newVersion, groups)
    ensures validCluster <==> NoPrevious(curr) || NothingLost(curr, numGroups, active)
    ensures curr.None? ==>
              forall a, b | a in active && b in active :: ReplicaCount(groups, a) <= ReplicaCount(groups, b) + 1
    ensures curr.None? && |active.Keys| <= maxReplicas ==>
              forall a, b | a in active && b in active :: LeaderCount(groups, a) <= LeaderCount(groups, b) + 1
  {
    hide AllFilled, AllLed, Assigned, NothingLost, DistinctNodes, Nodes, KeptCount, LeaderCount;
    var numReplicas := NumReplicas(active, maxReplicas);
    SomeActive(active);
    var bases, needs, replicas, leaders := FillGroups(curr, active, numGroups, numReplicas, newVersion);
    validCluster, groups := ChooseLeaders(curr, active, numGroups, numReplicas, newVersion, bases, needs, leaders);
    forall i | 0 <= i < numGroups
      ensures Nodes(groups[i]) == Nodes(bases[i])
      ensures Assigned(PrevGroup(curr, numGroups, i), groups[i], active, numReplicas, newVersion)
    {
      ComputedAt(curr, active, numGroups, numReplicas, newVersion, bases, needs, groups, i);
    }
    forall n: nat ensures ReplicaCount(groups, n) == CountOf(replicas, n) { SameReplicas(bases, groups, n); }
  }

  lemma {:induction false} ComputedAt(curr: Option<ClusterState>, active: Active, numGroups: nat, numReplicas: nat,
                                      version: int, bases: seq<GroupState>, needs: seq<bool>, groups: seq<GroupState>,
                                      i: nat)
    requires |bases| == |groups| == numGroups && i < numGroups && AllLed(curr, numGroups, bases, groups, active)
    requires AllFilled(curr, numGroups, bases, needs, active, numReplicas, version)
    ensures Nodes(groups[i]) == Nodes(bases[i])
    ensures Assigned(PrevGroup(curr, numGroups, i), groups[i], active, numReplicas, version)
  {
    hide Filled, Led, Nodes, LedFairly, FilledFairly, KeepsLeader;
    FairIsLed(curr, numGroups, active, groups[..i], bases[i], groups[i]);
    LedNodes(PrevGroup(curr, numGroups, i), bases[i], groups[i], active);
  }

  lemma {:induction false} FairIsLed(curr: Option<ClusterState>, numGroups: nat, active: Active,
                                     groups: seq<GroupState>, base: GroupState, g: GroupState)
    requires |groups| < numGroups && LedFairly(curr, numGroups, active, groups, base, g)
    ensures Led(PrevGroup(curr, numGroups, |groups|), base, g, active)
  {
    hide KeepsLeader, Candidates, HasValid, WithLeader, Load;
  }

  lemma {:induction false} SomeActive(active: Active)
    requires active != map[]
    ensures |active.Keys| >= 1
  {
    assert exists n :: n in active;
    var n: nat :| n in active;
    SubsetSize({n}, active.Keys);
  }

  lemma {:induction false} LedNodes(prev: GroupState, base: GroupState, g: GroupState, active: Active)
    requires Led(prev, base, g, active)
    ensures Nodes(g) == Nodes(base) && |g| == |base| && forall i | 0 <= i < |g| :: g[i].nodeID == base[i].nodeID
  {
    hide KeepsLeader, Candidates;
    assert |g| == |base| && forall i | 0 <= i < |g| :: g[i].nodeID == base[i].nodeID;
    SameIds(g, base);
  }

  lemma {:induction false} SameIds(g: GroupState, base: GroupState)
    requires |g| == |base| && forall i | 0 <= i < |g| :: g[i].nodeID == base[i].nodeID
    ensures Nodes(g) == Nodes(base)
  {
    forall n ensures n in Nodes(g) <==> n in Nodes(base) {
      if n in Nodes(g) {
        var x :| x in g && x.nodeID == n;
        var i :| 0 <= i < |g| && g[i] == x;
        assert base[i] in base;
      }
      if n in Nodes(base) {
        var x :| x in base && x.nodeID == n;
        var i :| 0 <= i < |base| && base[i] == x;
        assert g[i] in g;
      }
    }
  }

  lemma {:induction false} SameReplicas(a: seq<GroupState>, b: seq<GroupState>, n: nat)
    requires |a| == |b| && forall i | 0 <= i < |a| :: Nodes(a[i]) == Nodes(b[i])
    ensures ReplicaCount(a, n) == ReplicaCount(b, n)
  {
    if a != [] { SameReplicas(a[..|a| - 1], b[..|b| - 1], n); }
  }

  // ----- what an assignment means

  ghost predicate LedBy(g: GroupState, i: nat) {
    i < |g| && LeadsValidly(g[i]) && forall j | 0 <= j < |g| && g[j].leader :: j == i
  }

  ghost predicate OneLeader(g: GroupState) { exists i: nat :: LedBy(g, i) }

  /** A group of a stored state: the replicas wanted, on distinct active nodes, one of them the valid leader. */
  ghost predicate GroupOk(g: GroupState, nodes: set<nat>, numReplicas: nat, version: int) {
    && |g| == numReplicas && DistinctNodes(g) && Nodes(g) <= nodes && OneLeader(g)
    && forall x | x in g :: x.joinedVersion <= version
  }

  /** Whatever the previous state, the new group is sound. */
  lemma {:induction false} AssignedOk(prev: GroupState, g: GroupState, active: Active, numReplicas: nat, version: int)
    requires Assigned(prev, g, active, numReplicas, version) && numReplicas >= 1
    requires (prev != [] ==> OneLeader(prev)) && DistinctNodes(prev)
    requires forall x | x in prev :: x.joinedVersion <= version
    ensures GroupOk(g, active.Keys, numReplicas, version)
  {
    hide Led, OneLeader;
    var base: GroupState :| Filled(prev, base, active, numReplicas, version) && Led(prev, base, g, active);
    LedNodes(prev, base, g, active);
    PreservedMembers(prev, active);
    assert DistinctNodes(g);
    forall x | x in g ensures x.joinedVersion <= version { OldOrNew(prev, base, g, active, numReplicas, version, x); }
    if KeepsLeader(prev, active) { KeptLeaderAlone(prev, base, g, active, numReplicas, version); }
    else { ChosenLeaderAlone(prev, base, g, active, numReplicas, version); }
  }

  /** A replica is one that was kept, or one that joined now. */
  lemma {:induction false} OldOrNew(prev: GroupState, base: GroupState, g: GroupState, active: Active, numReplicas: nat,
                                    version: int, x: GroupNode)
    requires Filled(prev, base, active, numReplicas, version) && Led(prev, base, g, active) && x in g
    ensures (exists y | y in Preserved(prev, active) ::
               y.nodeID == x.nodeID && y.joinedVersion == x.joinedVersion && (x.valid && !x.leader ==> y.valid))
            || (x.joinedVersion == version && (x.valid ==> x.leader))
  {
    hide KeepsLeader, Candidates, Nodes, DistinctNodes;
    var i :| 0 <= i < |g| && g[i] == x;
    var p := Preserved(prev, active);
    assert base[i].joinedVersion == x.joinedVersion && base[i].nodeID == x.nodeID
      && (x.valid && !x.leader ==> base[i].valid);
    if i < |p| {
      assert base[i] == p[i] && p[i] in p;
    } else {
      assert base[i] == NewNode(base[i].nodeID, version);
      assert x.valid ==> x.leader;
    }
  }

  lemma {:induction false} KeptLeaderAlone(prev: GroupState, base: GroupState, g: GroupState, active: Active,
                                           numReplicas: nat, version: int)
    requires Filled(prev, base, active, numReplicas, version) && Led(prev, base, g, active) && KeepsLeader(prev, active)
    requires OneLeader(prev) && DistinctNodes(prev)
    ensures OneLeader(g)
  {
    hide Nodes;
    var p := Preserved(prev, active);
    PreservedMembers(prev, active);
    var x :| x in p && LeadsValidly(x);
    var i :| 0 <= i < |p| && p[i] == x;
    assert g[i] == x;
    assert forall j | |p| <= j < |g| :: !g[j].leader;
    forall j | 0 <= j < |p| && g[j].leader ensures j == i {
      assert g[j] == p[j] && p[j] in prev && x in prev;
      LeadersEqual(prev, p[j], x);
    }
    assert LedBy(g, i);
  }

  lemma {:induction false} LeadersEqual(prev: GroupState, a: GroupNode, b: GroupNode)
    requires OneLeader(prev) && a in prev && b in prev && a.leader && b.leader
    ensures a == b
  {
    var k: nat :| LedBy(prev, k);
    var i :| 0 <= i < |prev| && prev[i] == a;
    var j :| 0 <= j < |prev| && prev[j] == b;
  }

  lemma {:induction false} ChosenLeaderAlone(prev: GroupState, base: GroupState, g: GroupState, active: Active,
                                             numReplicas: nat, version: int)
    requires Filled(prev, base, active, numReplicas, version) && Led(prev, base, g, active)
    requires !KeepsLeader(prev, active)
    ensures OneLeader(g)
  {
    hide Nodes, KeepsLeader;
    var l :| l in Candidates(base, !HasValid(base)) && g == WithLeader(base, l);
    var x :| x in base && x.nodeID == l;
    var i :| 0 <= i < |base| && base[i] == x;
    assert LedBy(g, i);
  }

  /** A valid leader whose node stayed is kept as it is. */
  lemma {:induction false} LeaderKept(prev: GroupState, g: GroupState, active: Active, numReplicas: nat, version: int,
                                      x: GroupNode)
    requires Assigned(prev, g, active, numReplicas, version) && x in prev && LeadsValidly(x) && Stays(x, active)
    ensures x in g
  {
    PreservedMembers(prev, active);
    var base: GroupState :| Filled(prev, base, active, numReplicas, version) && Led(prev, base, g, active);
    var p := Preserved(prev, active);
    var i :| 0 <= i < |p| && p[i] == x;
    assert g[i] == x;
  }

  /** If the leader is gone, the new one is a valid replica that stayed, whenever there is one. */
  lemma {:induction false} LeaderFromValid(prev: GroupState, g: GroupState, active: Active, numReplicas: nat,
                                           version: int, x: GroupNode, i: nat)
    requires Assigned(prev, g, active, numReplicas, version) && x in prev && x.valid && Stays(x, active) && LedBy(g, i)
    ensures exists y | y in prev ::
              y.valid && Stays(y, active) && y.nodeID == g[i].nodeID && y.joinedVersion == g[i].joinedVersion
  {
    hide Nodes;
    PreservedMembers(prev, active);
    var base: GroupState :| Filled(prev, base, active, numReplicas, version) && Led(prev, base, g, active);
    var p := Preserved(prev, active);
    FreshInvalid(prev, base, active, numReplicas, version);
    assert x in p && HasValid(base);
    LedNodes(prev, base, g, active);
    ValidLeads(prev, base, g, active, i);
    assert base[i].valid;
    assert i < |p| && p[i] == base[i] && p[i] in p;
  }

  lemma {:induction false} ValidLeads(prev: GroupState, base: GroupState, g: GroupState, active: Active, i: nat)
    requires Led(prev, base, g, active) && HasValid(base) && LedBy(g, i) && |base| == |g| && DistinctNodes(base)
    ensures base[i].valid && base[i].joinedVersion == g[i].joinedVersion
  {
    if !KeepsLeader(prev, active) {
      var l :| l in Candidates(base, false) && g == WithLeader(base, l);
      var x: GroupNode :| x in base && x.valid && x.nodeID == l;
      var k :| 0 <= k < |base| && base[k] == x;
      assert g[k].leader;
    }
  }

  // ----- the stored state over a history

  /** What etcd holds: the cluster state with the nodes it was made for, and the versions marked valid. */
  datatype Store = Store(cs: Option<ClusterState>, ns: map<nat, int>, marks: map<(nat, nat), int>)

  function Refreshed(x: GroupNode, group: nat, marks: map<(nat, nat), int>): GroupNode {
    if x.leader then x else x.(valid := (x.nodeID, group) in marks && marks[(x.nodeID, group)] == x.joinedVersion)
  }

  function RefreshedGroup(g: GroupState, group: nat, marks: map<(nat, nat), int>): (r: GroupState)
    ensures |r| == |g| && forall i | 0 <= i < |r| :: r[i] == Refreshed(g[i], group, marks)
  {
    seq(|g|, i requires 0 <= i < |g| => Refreshed(g[i], group, marks))
  }

  function RefreshedState(cs: ClusterState, marks: map<(nat, nat), int>): (r: ClusterState)
    ensures r.version == cs.version && |r.groupStates| == |cs.groupStates|
    ensures forall i | 0 <= i < |r.groupStates| :: r.groupStates[i] == RefreshedGroup(cs.groupStates[i], i, marks)
  {
    cs.(groupStates := seq(|cs.groupStates|,
      i requires 0 <= i < |cs.groupStates| => RefreshedGroup(cs.groupStates[i], i, marks)))
  }

  function RefreshedOption(s: Store): Option<ClusterState> {
    if s.cs.None? then None else Some(RefreshedState(s.cs.value, s.marks))
  }

  /** A node counts as added unless it was there before under the same version. */
  function AddedNodes(ns: map<nat, int>, activeNodes: map<nat, int>): Active {
    map n | n in activeNodes :: n !in ns || ns[n] != activeNodes[n]
  }

  function NextVersion(cs: Option<ClusterState>): int { if cs.Some? then cs.value.version + 1 else 0 }

  /**
   A successful recalculation by the leading node. It is made from what the node read, v, and stored over s,
   by a compare-and-set: the state is still the one that was read, but marks may have been made since.
   */
  ghost predicate Recalculated(v: Store, s: Store, activeNodes: map<nat, int>, s': Store, numGroups: nat,
                               maxReplicas: nat) {
    && v.cs == s.cs && v.ns == s.ns
    && s'.cs.Some? && s'.ns == activeNodes && s'.marks == s.marks && s'.cs.value.version == NextVersion(v.cs)
    && |s'.cs.value.groupStates| == numGroups
    && forall i | 0 <= i < numGroups ::
         Assigned(PrevGroup(RefreshedOption(v), numGroups, i), s'.cs.value.groupStates[i],
                  AddedNodes(v.ns, activeNodes),
                  NumReplicas(AddedNodes(v.ns, activeNodes), maxReplicas), NextVersion(v.cs))
  }

  /** MarkGroupAsValid: the marked version only grows. */
  function Mark(s: Store, node: nat, group: nat, version: int): Store {
    if (node, group) !in s.marks || s.marks[(node,
      group)] < version then s.(marks := s.marks[(node, group) := version]) else s
  }

  ghost predicate Inv(s: Store, numGroups: nat, maxReplicas: nat) {
    && (s.cs.None? ==> s.marks == map[])
    && (s.cs.Some? ==>
          && s.ns != map[] && |s.cs.value.groupStates| == numGroups
          && (forall g | g in s.cs.value.groupStates ::
                GroupOk(g, s.ns.Keys, if |s.ns.Keys| > maxReplicas then maxReplicas else |s.ns.Keys|,
                  s.cs.value.version))
          && forall k | k in s.marks :: s.marks[k] <= s.cs.value.version)
  }

  class ClusteredStateManager {
    var store: Store
    const numGroups: nat
    const maxReplicas: nat

    constructor (numGroups: nat, maxReplicas: nat)
      requires maxReplicas >= 1
      ensures this.numGroups == numGroups && this.maxReplicas == maxReplicas && store == Store(None, map[], map[])
    {
      this.numGroups, this.maxReplicas, store := numGroups, maxReplicas, Store(None, map[], map[]);
    }

    /**
     handleActiveNodes on the leading node, when no other node changed the stored state meanwhile. The marks
     in validGroups were read before the state is stored, and others may have been made since.
     */
    method HandleActiveNodes(activeNodes: map<nat, int>, validGroups: map<(nat, nat), int>) returns (validCluster: bool)
      requires maxReplicas >= 1 && Inv(store, numGroups, maxReplicas)
      requires Inv(store.(marks := validGroups), numGroups, maxReplicas)
      modifies this
      ensures Inv(store, numGroups, maxReplicas)
      ensures activeNodes == map[] ==> store == old(store)
      ensures activeNodes != map[] ==>
                Recalculated(old(store).(marks := validGroups), old(store), activeNodes, store, numGroups, maxReplicas)
      ensures var v, active := old(store).(marks := validGroups), AddedNodes(old(store).ns, activeNodes);
              if activeNodes == map[] then validCluster
              else
                && Computed(RefreshedOption(v), active, numGroups, NumReplicas(active, maxReplicas), NextVersion(v.cs),
                            store.cs.value.groupStates)
                && (validCluster
                    <==> NoPrevious(RefreshedOption(v)) || NothingLost(RefreshedOption(v), numGroups, active))
    {
      hide Inv, Assigned, GroupOk, NothingLost, NoPrevious, Computed, ReplicaCount, LeaderCount;
      if activeNodes == map[] { return true; }
      ghost var v := store.(marks := validGroups);
      var cs := store.cs;
      if cs.Some? {
        var updated := UpdateValid(cs.value, validGroups);
        cs := Some(updated);
      }
      InvUsable(v, numGroups, maxReplicas);
      KeysSame(store.ns, activeNodes);
      var active := AddedNodes(store.ns, activeNodes);
      var newVersion := if cs.Some? then cs.value.version + 1 else 0;
      var groups;
      validCluster, groups := CalculateGroupStates(cs, active, numGroups, maxReplicas, newVersion);
      ghost var was := store;
      store := Store(Some(ClusterState(newVersion, groups)), activeNodes, store.marks);
      RecalculatedKeepsInv(v, was, activeNodes, store, numGroups, maxReplicas);
    }

    method MarkGroupAsValid(node: nat, group: nat, joinedVersion: int) returns (ok: bool)
      requires Inv(store, numGroups, maxReplicas) && store.cs.Some? && joinedVersion <= store.cs.value.version
      modifies this
      ensures Inv(store, numGroups, maxReplicas) && store == Mark(old(store), node, group, joinedVersion)
      ensures ok <==> store != old(store)
    {
      if (node, group) in store.marks && !(store.marks[(node, group)] < joinedVersion) { return false; }
      ok := true;
      assert (node, group) !in store.marks || store.marks[(node, group)] != joinedVersion;
      store := store.(marks := store.marks[(node, group) := joinedVersion]);
    }
  }

  /** The loop that takes the marks over into the state it was read with. */
  method UpdateValid(cs: ClusterState, marks: map<(nat, nat), int>) returns (r: ClusterState)
    ensures r == RefreshedState(cs, marks)
  {
    var groups := cs.groupStates;
    for i := 0 to |groups|
      invariant |groups| == |cs.groupStates|
      invariant forall k | 0 <= k < i :: groups[k] == RefreshedGroup(cs.groupStates[k], k, marks)
      invariant forall k | i <= k < |groups| :: groups[k] == cs.groupStates[k]
    {
      var g := groups[i];
      for j := 0 to |g|
        invariant |g| == |cs.groupStates[i]|
        invariant forall k | 0 <= k < j :: g[k] == Refreshed(cs.groupStates[i][k], i, marks)
        invariant forall k | j <= k < |g| :: g[k] == cs.groupStates[i][k]
      {
        var x := g[j];
        if !x.leader {
          var ok := (x.nodeID, i) in marks && marks[(x.nodeID, i)] == x.joinedVersion;
          g := g[j := x.(valid := ok)];
        }
      }
      assert g == RefreshedGroup(cs.groupStates[i], i, marks);
      groups := groups[i := g];
    }
    r := cs.(groupStates := groups);
    assert r.groupStates == RefreshedState(cs, marks).groupStates;
  }

  lemma {:induction false} KeysSame(ns: map<nat, int>, activeNodes: map<nat, int>)
    ensures AddedNodes(ns, activeNodes).Keys == activeNodes.Keys
    ensures activeNodes != map[] ==> AddedNodes(ns, activeNodes) != map[]
  {
    if AddedNodes(ns, activeNodes) == map[] {
      assert activeNodes.Keys == {};
      assert activeNodes == map[];
    }
  }

  lemma {:induction false} RefreshKeeps(g: GroupState, group: nat, marks: map<(nat, nat), int>, nodes: set<nat>,
                                        numReplicas: nat, version: int)
    requires GroupOk(g, nodes, numReplicas, version)
    ensures GroupOk(RefreshedGroup(g, group, marks), nodes, numReplicas, version)
  {
    var r := RefreshedGroup(g, group, marks);
    SameIds(r, g);
    var i: nat :| LedBy(g, i);
    assert LedBy(r, i);
    forall x | x in r ensures x.joinedVersion <= version {
      var k :| 0 <= k < |r| && r[k] == x;
      assert g[k] in g;
    }
  }

  lemma {:induction false} InvUsable(s: Store, numGroups: nat, maxReplicas: nat)
    requires Inv(s, numGroups, maxReplicas)
    ensures StateUsable(RefreshedOption(s), maxReplicas)
  {
    if s.cs.Some? {
      var r := RefreshedState(s.cs.value, s.marks);
      forall g | g in r.groupStates ensures DistinctNodes(g) && |g| <= maxReplicas {
        var i :| 0 <= i < |r.groupStates| && r.groupStates[i] == g;
        assert s.cs.value.groupStates[i] in s.cs.value.groupStates;
      }
    }
  }

  /** The previous group as the calculation sees it. */
  lemma {:induction false} PrevGroupOk(s: Store, numGroups: nat, maxReplicas: nat, i: nat)
    requires Inv(s, numGroups, maxReplicas) && maxReplicas >= 1 && i < numGroups
    ensures var prev := PrevGroup(RefreshedOption(s), numGroups, i);
            (prev != [] ==> OneLeader(prev)) && DistinctNodes(prev)
              && (forall x | x in prev :: x.joinedVersion <= NextVersion(s.cs))
    ensures s.cs.Some? ==>
              PrevGroup(RefreshedOption(s), numGroups, i) == RefreshedGroup(s.cs.value.groupStates[i], i, s.marks)
  {
    if s.cs.Some? {
      var g := s.cs.value.groupStates[i];
      assert g in s.cs.value.groupStates;
      RefreshKeeps(g, i, s.marks, s.ns.Keys, if |s.ns.Keys| > maxReplicas then maxReplicas else |s.ns.Keys|,
                   s.cs.value.version);
    }
  }

  lemma {:induction false} RecalculatedKeepsInv(v: Store, s: Store, activeNodes: map<nat, int>, s': Store,
                                                numGroups: nat, maxReplicas: nat)
    requires Inv(v, numGroups, maxReplicas) && Inv(s, numGroups, maxReplicas) && maxReplicas >= 1
    requires activeNodes != map[] && Recalculated(v, s, activeNodes, s', numGroups, maxReplicas)
    ensures Inv(s', numGroups, maxReplicas)
  {
    hide Assigned, GroupOk, OneLeader, DistinctNodes;
    var active := AddedNodes(v.ns, activeNodes);
    KeysSame(v.ns, activeNodes);
    SomeActive(active);
    forall g | g in s'.cs.value.groupStates
      ensures GroupOk(g, activeNodes.Keys, NumReplicas(active, maxReplicas), s'.cs.value.version)
    {
      var i :| 0 <= i < numGroups && s'.cs.value.groupStates[i] == g;
      PrevGroupOk(v, numGroups, maxReplicas, i);
      AssignedOk(PrevGroup(RefreshedOption(v), numGroups, i), g, active, NumReplicas(active, maxReplicas),
                 NextVersion(v.cs));
    }
  }

  // ----- histories

  /** A recalculation is made from the store after readAt events. */
  datatype Event =
    | NodesChanged(activeNodes: map<nat, int>, readAt: nat)
    | Marked(node: nat, group: nat, joinedVersion: int)

  /** A replica marks itself with the version it joined at, which it read from a stored state. */
  ghost predicate Happens(v: Store, s: Store, e: Event, s': Store, numGroups: nat, maxReplicas: nat) {
    match e
    case NodesChanged(activeNodes, _) =>
      activeNodes != map[] && Recalculated(v, s, activeNodes, s', numGroups, maxReplicas)
    case Marked(node, group, version) =>
      s.cs.Some? && version <= s.cs.value.version && s' == Mark(s, node, group, version)
  }

  /** What event k was made from. */
  ghost function ReadBy(stores: seq<Store>, events: seq<Event>, k: nat): Store
    requires k < |events| < |stores|
  {
    if events[k].NodesChanged? && events[k].readAt <= k then stores[events[k].readAt] else stores[k]
  }

  ghost predicate IsHistory(stores: seq<Store>, events: seq<Event>, numGroups: nat, maxReplicas: nat) {
    && |stores| == |events| + 1 && stores[0] == Store(None, map[], map[])
    && (forall i | 0 <= i < |events| && events[i].NodesChanged? :: events[i].readAt <= i)
    && forall i | 0 <= i < |events| ::
         Happens(ReadBy(stores, events, i), stores[i], events[i], stores[i + 1], numGroups, maxReplicas)
  }

  /** Every stored state gives every group min(active, max) distinct active nodes and one leader, which is valid. */
  lemma {:induction false} EveryStateSound(stores: seq<Store>, events: seq<Event>, numGroups: nat, maxReplicas: nat,
                                           k: nat)
    requires IsHistory(stores, events, numGroups, maxReplicas) && maxReplicas >= 1 && k < |stores|
    ensures Inv(stores[k], numGroups, maxReplicas)
  {
    hide Recalculated, GroupOk;
    if k > 0 {
      EveryStateSound(stores, events, numGroups, maxReplicas, k - 1);
      var v, s, s', e := ReadBy(stores, events, k - 1), stores[k - 1], stores[k], events[k - 1];
      assert Happens(v, s, e, s', numGroups, maxReplicas);
      if e.NodesChanged? {
        EveryStateSound(stores, events, numGroups, maxReplicas, e.readAt);
        RecalculatedKeepsInv(v, s, e.activeNodes, s', numGroups, maxReplicas);
      }
    }
  }

  /** A leader whose node is still there, unbounced, leads on. */
  lemma {:induction false} SurvivingLeaderLeads(stores: seq<Store>, events: seq<Event>, numGroups: nat,
                                                maxReplicas: nat, k: nat, group: nat, x: GroupNode)
    requires IsHistory(stores, events, numGroups, maxReplicas) && maxReplicas >= 1 && k < |events|
    requires events[k].NodesChanged?
    requires stores[k].cs.Some? && group < |stores[k].cs.value.groupStates|
    requires x in stores[k].cs.value.groupStates[group] && x.leader
    requires x.nodeID in stores[k].ns && x.nodeID in events[k].activeNodes
    requires stores[k].ns[x.nodeID] == events[k].activeNodes[x.nodeID]
    ensures stores[k + 1].cs.Some? && group < |stores[k + 1].cs.value.groupStates|
    ensures x in stores[k + 1].cs.value.groupStates[group]
  {
    hide Assigned;
    var s, s', active := stores[k], stores[k + 1], AddedNodes(stores[k].ns, events[k].activeNodes);
    var v := ReadBy(stores, events, k);
    EveryStateSound(stores, events, numGroups, maxReplicas, k);
    EveryStateSound(stores, events, numGroups, maxReplicas, events[k].readAt);
    assert Happens(v, s, events[k], s', numGroups, maxReplicas);
    PrevGroupOk(v, numGroups, maxReplicas, group);
    var g := s.cs.value.groupStates[group];
    var prev := PrevGroup(RefreshedOption(v), numGroups, group);
    var i :| 0 <= i < |g| && g[i] == x;
    assert prev[i] == x;
    LeadersValid(g, x, s, numGroups, maxReplicas);
    LeaderKept(prev, s'.cs.value.groupStates[group], active, NumReplicas(active, maxReplicas), NextVersion(s.cs), x);
  }

  lemma {:induction false} LeadersValid(g: GroupState, x: GroupNode, s: Store, numGroups: nat, maxReplicas: nat)
    requires Inv(s, numGroups, maxReplicas) && s.cs.Some? && g in s.cs.value.groupStates && x in g && x.leader
    ensures x.valid
  {
    var i: nat :| LedBy(g, i);
    var j :| 0 <= j < |g| && g[j] == x;
  }

  /** A new leader is a replica that stayed and was read as marked valid for its own joining, whenever there is one. */
  lemma {:induction false} NewLeaderHasData(stores: seq<Store>, events: seq<Event>, numGroups: nat, maxReplicas: nat,
                                            k: nat, group: nat, x: GroupNode)
    requires IsHistory(stores, events, numGroups, maxReplicas) && maxReplicas >= 1 && k < |events|
    requires events[k].NodesChanged?
    requires stores[k].cs.Some? && group < |stores[k].cs.value.groupStates|
    requires x in stores[k].cs.value.groupStates[group]
    requires Stays(x, AddedNodes(stores[k].ns, events[k].activeNodes))
    requires x.leader || IsMarked(ReadBy(stores, events, k), x.nodeID, group, x.joinedVersion)
    ensures stores[k + 1].cs.Some? && group < |stores[k + 1].cs.value.groupStates|
    ensures forall z | z in stores[k + 1].cs.value.groupStates[group] && z.leader ::
              HadData(ReadBy(stores, events, k), events[k].activeNodes, group, z)
  {
    hide GroupOk, HadData, Inv, Assigned;
    var v, s, s' := ReadBy(stores, events, k), stores[k], stores[k + 1];
    EveryStateSound(stores, events, numGroups, maxReplicas, events[k].readAt);
    EveryStateSound(stores, events, numGroups, maxReplicas, k + 1);
    assert Happens(v, s, events[k], s', numGroups, maxReplicas);
    StepLeaderHasData(v, s, events[k].activeNodes, s', numGroups, maxReplicas, group, x);
  }

  lemma {:induction false} StepLeaderHasData(v: Store, s: Store, activeNodes: map<nat, int>, s': Store, numGroups: nat,
                                             maxReplicas: nat, group: nat, x: GroupNode)
    requires Inv(v, numGroups, maxReplicas) && Inv(s', numGroups, maxReplicas) && maxReplicas >= 1
    requires Recalculated(v, s, activeNodes, s', numGroups, maxReplicas)
    requires v.cs.Some? && group < |v.cs.value.groupStates| && x in v.cs.value.groupStates[group]
    requires Stays(x, AddedNodes(v.ns, activeNodes))
    requires x.leader || IsMarked(v, x.nodeID, group, x.joinedVersion)
    ensures s'.cs.Some? && group < |s'.cs.value.groupStates|
    ensures forall z | z in s'.cs.value.groupStates[group] && z.leader :: HadData(v, activeNodes, group, z)
  {
    hide Assigned, Nodes, AddedNodes, DistinctNodes, HadData;
    var active := AddedNodes(v.ns, activeNodes);
    PrevGroupOk(v, numGroups, maxReplicas, group);
    var g, g' := v.cs.value.groupStates[group], s'.cs.value.groupStates[group];
    var prev := RefreshedGroup(g, group, v.marks);
    var i :| 0 <= i < |g| && g[i] == x;
    if x.leader { LeadersValid(g, x, v, numGroups, maxReplicas); }
    assert prev[i] in prev && prev[i].valid && Stays(prev[i], active);
    assert g' in s'.cs.value.groupStates;
    var l: nat :| LedBy(g', l);
    LeaderFromValid(prev, g', active, NumReplicas(active, maxReplicas), NextVersion(v.cs), prev[i], l);
    var y :| y in prev && y.valid && Stays(y, active) && y.nodeID == g'[l].nodeID
      && y.joinedVersion == g'[l].joinedVersion;
    var j :| 0 <= j < |prev| && prev[j] == y;
    IsData(v, activeNodes, group, j, g'[l]);
    forall z | z in g' && z.leader ensures z == g'[l] { var m :| 0 <= m < |g'| && g'[m] == z; }
  }

  lemma {:induction false} IsData(s: Store, activeNodes: map<nat, int>, group: nat, j: nat, z: GroupNode)
    requires s.cs.Some? && group < |s.cs.value.groupStates| && j < |s.cs.value.groupStates[group]|
    requires var y := Refreshed(s.cs.value.groupStates[group][j], group, s.marks);
             y.valid && Stays(y, AddedNodes(s.ns, activeNodes)) && y.nodeID == z.nodeID
               && y.joinedVersion == z.joinedVersion
    ensures HadData(s, activeNodes, group, z)
  {
    var x := s.cs.value.groupStates[group][j];
    assert x in s.cs.value.groupStates[group];
  }

  /** The node held this replica, under the same joining, as leader or marked valid for exactly that joining. */
  ghost predicate HadData(s: Store, activeNodes: map<nat, int>, group: nat, z: GroupNode) {
    s.cs.Some? && group < |s.cs.value.groupStates| &&
    exists y | y in s.cs.value.groupStates[group] ::
      && y.nodeID == z.nodeID && y.joinedVersion == z.joinedVersion && Stays(y, AddedNodes(s.ns, activeNodes))
      && (y.leader || IsMarked(s, y.nodeID, group, y.joinedVersion))
  }

  ghost predicate IsMarked(s: Store, node: nat, group: nat, version: int) {
    (node, group) in s.marks && s.marks[(node, group)] == version
  }

  /** A mark that was not there was made since. */
  lemma {:induction false} MarkWasMade(stores: seq<Store>, events: seq<Event>, numGroups: nat, maxReplicas: nat,
                                       from: nat, m: nat,
                                       node: nat, group: nat, version: int)
    returns (i: nat)
    requires IsHistory(stores, events, numGroups, maxReplicas) && from <= m < |stores|
    requires !IsMarked(stores[from], node, group, version) && IsMarked(stores[m], node, group, version)
    ensures from <= i < m && events[i] == Marked(node, group, version)
    ensures stores[i].cs.Some? && version <= stores[i].cs.value.version
  {
    hide Assigned;
    assert Happens(ReadBy(stores, events, m - 1), stores[m - 1], events[m - 1], stores[m], numGroups, maxReplicas);
    if IsMarked(stores[m - 1], node, group, version) {
      i := MarkWasMade(stores, events, numGroups, maxReplicas, from, m - 1, node, group, version);
    } else {
      i := m - 1;
    }
  }

  /**
   Every valid replica that does not lead was marked, with exactly the version it joined at, and at a
   time when the stored state had reached that version. So no earlier incarnation can have made it valid.
   */
  lemma {:induction false} ValidWasMarked(stores: seq<Store>, events: seq<Event>, numGroups: nat, maxReplicas: nat,
                                          m: nat, group: nat, y: GroupNode)
    returns (i: nat)
    requires IsHistory(stores, events, numGroups, maxReplicas) && maxReplicas >= 1 && m < |stores|
    requires stores[m].cs.Some? && group < |stores[m].cs.value.groupStates|
    requires y in stores[m].cs.value.groupStates[group]
    requires y.valid && !y.leader
    ensures i < m && events[i] == Marked(y.nodeID, group, y.joinedVersion)
    ensures stores[i].cs.Some? && y.joinedVersion <= stores[i].cs.value.version
  {
    hide Assigned, GroupOk, Inv;
    var v, s, s' := ReadBy(stores, events, m - 1), stores[m - 1], stores[m];
    assert Happens(v, s, events[m - 1], s', numGroups, maxReplicas);
    if events[m - 1].NodesChanged? {
      var r := events[m - 1].readAt;
      EveryStateSound(stores, events, numGroups, maxReplicas, r);
      MarkedBefore(v, s, events[m - 1].activeNodes, s', numGroups, maxReplicas, group, y);
      i := MarkWasMade(stores, events, numGroups, maxReplicas, 0, r, y.nodeID, group, y.joinedVersion);
    } else {
      i := ValidWasMarked(stores, events, numGroups, maxReplicas, m - 1, group, y);
    }
  }

  /** A recalculation leaves a replica valid that does not lead only if it is marked. */
  lemma {:induction false} MarkedBefore(v: Store, s: Store, activeNodes: map<nat, int>, s': Store, numGroups: nat,
                                        maxReplicas: nat, group: nat, y: GroupNode)
    requires Inv(v, numGroups, maxReplicas) && Recalculated(v, s, activeNodes, s', numGroups, maxReplicas)
    requires maxReplicas >= 1
    requires group < numGroups && y in s'.cs.value.groupStates[group] && y.valid && !y.leader
    ensures IsMarked(v, y.nodeID, group, y.joinedVersion)
  {
    hide GroupOk, Inv;
    var active, g' := AddedNodes(v.ns, activeNodes), s'.cs.value.groupStates[group];
    PrevGroupOk(v, numGroups, maxReplicas, group);
    var prev := PrevGroup(RefreshedOption(v), numGroups, group);
    var base: GroupState :| Filled(prev, base, active, NumReplicas(active, maxReplicas), NextVersion(v.cs))
      && Led(prev, base, g', active);
    var p := KeptFrom(prev, base, g', active, NumReplicas(active, maxReplicas), NextVersion(v.cs), y);
    PreservedMembers(prev, active);
    var j :| 0 <= j < |prev| && prev[j] == p;
    assert v.cs.Some? && p == Refreshed(v.cs.value.groupStates[group][j], group, v.marks);
  }

  /** The kept replica behind a valid one that does not lead did not lead either. */
  lemma {:induction false} KeptFrom(prev: GroupState, base: GroupState, g: GroupState, active: Active, numReplicas: nat,
                                    version: int, y: GroupNode)
    returns (p: GroupNode)
    requires Filled(prev, base, active, numReplicas, version) && Led(prev, base, g, active) && y in g && y.valid
    requires !y.leader
    ensures p in Preserved(prev, active) && p.nodeID == y.nodeID && p.joinedVersion == y.joinedVersion && p.valid
    ensures !p.leader
  {
    hide Filled, Led;
    OldOrNew(prev, base, g, active, numReplicas, version, y);
    p :| p in Preserved(prev, active) && p.nodeID == y.nodeID && p.joinedVersion == y.joinedVersion && p.valid;
    if p.leader { KeptLeaderSame(prev, base, g, active, numReplicas, version, p, y); }
  }

  lemma {:induction false} KeptLeaderSame(prev: GroupState, base: GroupState, g: GroupState, active: Active,
                                          numReplicas: nat, version: int, p: GroupNode, y: GroupNode)
    requires Filled(prev, base, active, numReplicas, version) && Led(prev, base, g, active)
    requires p in Preserved(prev, active) && LeadsValidly(p) && y in g && y.nodeID == p.nodeID
    ensures y == p
  {
    hide Candidates, Nodes;
    var kept := Preserved(prev, active);
    var i :| 0 <= i < |kept| && kept[i] == p;
    var k :| 0 <= k < |g| && g[k] == y;
    assert g == base && base[i] == p;
  }

  /**
   A replica that joins gets a version above every mark made so far, and is marked with it later only
   by an event after its joining.
   */
  lemma {:induction false} OldMarksNeverValidate(stores: seq<Store>, events: seq<Event>, numGroups: nat,
                                                 maxReplicas: nat, k: nat, group: nat, z: GroupNode)
    requires IsHistory(stores, events, numGroups, maxReplicas) && maxReplicas >= 1 && k < |events|
    requires events[k].NodesChanged?
    requires stores[k + 1].cs.Some? && group < |stores[k + 1].cs.value.groupStates|
    requires z in stores[k + 1].cs.value.groupStates[group]
    requires stores[k].cs.Some? && group < |stores[k].cs.value.groupStates|
    requires forall y | y in stores[k].cs.value.groupStates[group] ::
               !(y.nodeID == z.nodeID && Stays(y, AddedNodes(stores[k].ns, events[k].activeNodes)))
    ensures z.joinedVersion == stores[k + 1].cs.value.version && (z.valid ==> z.leader)
    ensures forall key | key in stores[k].marks :: stores[k].marks[key] < z.joinedVersion
    ensures forall m | k < m < |stores| && IsMarked(stores[m], z.nodeID, group, z.joinedVersion) ::
              exists i | k < i < m :: events[i] == Marked(z.nodeID, group, z.joinedVersion)
  {
    hide GroupOk;
    var s, s', active := stores[k], stores[k + 1], AddedNodes(stores[k].ns, events[k].activeNodes);
    var v := ReadBy(stores, events, k);
    EveryStateSound(stores, events, numGroups, maxReplicas, k);
    EveryStateSound(stores, events, numGroups, maxReplicas, events[k].readAt);
    assert Happens(v, s, events[k], s', numGroups, maxReplicas);
    PrevGroupOk(v, numGroups, maxReplicas, group);
    var g, g' := s.cs.value.groupStates[group], s'.cs.value.groupStates[group];
    var prev := PrevGroup(RefreshedOption(v), numGroups, group);
    var base: GroupState :| Filled(prev, base, active, NumReplicas(active, maxReplicas), NextVersion(s.cs))
      && Led(prev, base, g', active);
    OldOrNew(prev, base, g', active, NumReplicas(active, maxReplicas), NextVersion(s.cs), z);
    PreservedMembers(prev, active);
    forall y | y in Preserved(prev, active) ensures y.nodeID != z.nodeID {
      var j :| 0 <= j < |prev| && prev[j] == y;
      assert g[j] in g && y == Refreshed(g[j], group, v.marks);
    }
    forall m | k < m < |stores| && IsMarked(stores[m], z.nodeID, group, z.joinedVersion)
      ensures exists i | k < i < m :: events[i] == Marked(z.nodeID, group, z.joinedVersion)
    {
      var i := MarkWasMade(stores, events, numGroups, maxReplicas, k + 1, m, z.nodeID, group, z.joinedVersion);
    }
  }
}
