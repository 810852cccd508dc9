/**
 The peer index of a network: which node last reported which peer ID, kept up to date by polling
 nodes and by expiring the ones that have gone silent, and the health ratio computed from it.

 A poll that fails changes nothing. Go ranges over maps in an arbitrary order, so loops pick keys
 one by one.
 */
module PeerIndex {

  import opened Words

  type Time = int
  type Node = string
  type PeerId = string

  /** `peers` maps the IDs a node reports as peers to whether they are connected. */
  datatype NodeState = NodeState(peerId: PeerId, peers: map<PeerId, bool>, knownPeers: seq<Node>, updatedAt: Time)

  type Nodes = map<Node, NodeState>
  type Index = map<PeerId, Node>

  datatype Net = Net(nodes: Nodes, index: Index)

  datatype Event = Poll(node: Node, st: NodeState) | Expire(node: Node)

  const EMPTY := Net(map[], map[])

  /** One node's answer, or its expiry. A changed ID gives up the entry of the old one. */
  function Step(net: Net, e: Event): Net {
    match e
    case Poll(n, st) =>
      var index := if n in net.nodes && net.nodes[n].peerId != st.peerId
                   then net.index - {net.nodes[n].peerId} else net.index;
      Net(net.nodes[n := st], index[st.peerId := n])
    case Expire(n) =>
      if n in net.nodes then Net(net.nodes - {n}, net.index - {net.nodes[n].peerId}) else net
  }

  function Run(net: Net, es: seq<Event>): Net {
    if es == [] then net else Step(Run(net, es[..|es| - 1]), es[|es| - 1])
  }

  // ---------- soundness of the index ----------

  /** Every entry points to a live node that currently reports that ID. */
  predicate Sound(net: Net) {
    forall p :: p in net.index ==> net.index[p] in net.nodes && net.nodes[net.index[p]].peerId == p
  }

  lemma {:induction false} SoundOverRuns(es: seq<Event>)
    ensures Sound(Run(EMPTY, es))
  {
    if es != [] {
      SoundOverRuns(es[..|es| - 1]);
    }
  }

  /** A sound index never lists a node twice. */
  lemma SoundIsInjective(net: Net, p: PeerId, q: PeerId)
    requires Sound(net) && p in net.index && q in net.index && net.index[p] == net.index[q]
    ensures p == q
  {
  }

  // ---------- completeness ----------

  predicate Indexed(net: Net, n: Node) {
    n in net.nodes && net.nodes[n].peerId in net.index && net.index[net.nodes[n].peerId] == n
  }

  predicate DistinctIds(net: Net) {
    forall a, b :: a in net.nodes && b in net.nodes && a != b ==> net.nodes[a].peerId != net.nodes[b].peerId
  }

  /** `e` makes another node claim `p`, or give it up, or expire while reporting it. */
  predicate Disturbs(net: Net, e: Event, p: PeerId) {
    match e
    case Poll(m, st) => st.peerId == p || (m in net.nodes && net.nodes[m].peerId == p && st.peerId != p)
    case Expire(m) => m in net.nodes && net.nodes[m].peerId == p
  }

  /** An answer replaces what was known of the node, an expiry removes it, and no other node is touched. */
  lemma StepNodes(net: Net, e: Event, n: Node)
    ensures e.Poll? && e.node == n ==> n in Step(net, e).nodes && Step(net, e).nodes[n] == e.st
    ensures e == Expire(n) ==> n !in Step(net, e).nodes
    ensures e.node != n ==> (n in Step(net, e).nodes <==> n in net.nodes)
    ensures e.node != n && n in net.nodes ==> Step(net, e).nodes[n] == net.nodes[n]
  {
  }

  /** After its own poll a node is indexed, and it stays so until another node disturbs its ID. */
  lemma IndexedStep(net: Net, e: Event, n: Node)
    requires n in net.nodes
    ensures e.Poll? && e.node == n ==> Indexed(Step(net, e), n)
    ensures e.node != n ==>
              (Indexed(Step(net, e), n) <==> Indexed(net, n) && !Disturbs(net, e, net.nodes[n].peerId))
  {
  }

  /** No event of `es` is about `n`. */
  predicate LeavesAlone(es: seq<Event>, n: Node) {
    forall i :: 0 <= i < |es| ==> es[i].node != n
  }

  lemma {:induction false} NodeKept(net: Net, es: seq<Event>, n: Node)
    requires n in net.nodes && LeavesAlone(es, n)
    ensures n in Run(net, es).nodes && Run(net, es).nodes[n] == net.nodes[n]
  {
    if es != [] {
      NodeKept(net, es[..|es| - 1], n);
    }
  }

  ghost predicate Undisturbed(net: Net, es: seq<Event>, p: PeerId) {
    forall i :: 0 <= i < |es| ==> !Disturbs(Run(net, es[..i]), es[i], p)
  }

  lemma UndisturbedSplit(net: Net, es: seq<Event>, p: PeerId)
    requires es != []
    ensures var k := |es| - 1;
            Undisturbed(net, es, p) <==> Undisturbed(net, es[..k], p) && !Disturbs(Run(net, es[..k]), es[k], p)
  {
    var k := |es| - 1;
    forall i | 0 <= i < k
      ensures Disturbs(Run(net, es[..k][..i]), es[..k][i], p) == Disturbs(Run(net, es[..i]), es[i], p)
    {
      assert es[..k][..i] == es[..i];
    }
  }

  /** Exactly when a node is still indexed, any number of events of other nodes after its poll. */
  lemma {:induction false} IndexedIffUndisturbed(net: Net, es: seq<Event>, n: Node)
    requires Indexed(net, n) && LeavesAlone(es, n)
    ensures Indexed(Run(net, es), n) <==> Undisturbed(net, es, net.nodes[n].peerId)
  {
    if es != [] {
      var k := |es| - 1;
      IndexedIffUndisturbed(net, es[..k], n);
      NodeKept(net, es[..k], n);
      IndexedStep(Run(net, es[..k]), es[k], n);
      UndisturbedSplit(net, es, net.nodes[n].peerId);
    }
  }

  lemma DistinctUndisturbed(net: Net, e: Event, n: Node)
    requires n in net.nodes && e.node != n && DistinctIds(net) && DistinctIds(Step(net, e))
    ensures !Disturbs(net, e, net.nodes[n].peerId)
  {
    var net' := Step(net, e);
    assert net'.nodes[n] == net.nodes[n];
    if e.Poll? {
      assert net'.nodes[e.node] == e.st;
    }
  }

  /** In a run whose nodes always report distinct IDs, the index is a bijection with the live nodes. */
  lemma {:induction false} BijectionWhenDistinct(es: seq<Event>, n: Node)
    requires forall i :: 0 <= i <= |es| ==> DistinctIds(Run(EMPTY, es[..i]))
    requires n in Run(EMPTY, es).nodes
    ensures Indexed(Run(EMPTY, es), n)
  {
    var k := |es| - 1;
    var before, e := es[..k], es[k];
    assert forall i :: 0 <= i <= k ==> before[..i] == es[..i];
    assert es[..|es|] == es;
    var net := Run(EMPTY, before);
    if e.node != n {
      BijectionWhenDistinct(before, n);
      DistinctUndisturbed(net, e, n);
      IndexedStep(net, e, n);
    }
  }

  lemma RunOfThree(e1: Event, e2: Event, e3: Event)
    ensures Run(EMPTY, [e1, e2, e3]) == Step(Step(Step(EMPTY, e1), e2), e3)
  {
    assert [e1, e2, e3][..2] == [e1, e2] && [e1, e2][..1] == [e1] && [e1][..0] == [];
    assert Run(EMPTY, [e1]) == Step(EMPTY, e1);
    assert Run(EMPTY, [e1, e2]) == Step(Run(EMPTY, [e1]), e2);
  }

  /** Distinct IDs now are not enough: a past clash can leave a live node out of the index. */
  lemma PastClashLosesEntry(a: Node, b: Node, x: PeerId, y: PeerId, t: Time)
    requires a != b && x != y
    ensures var sx, sy := NodeState(x, map[], [], t), NodeState(y, map[], [], t);
            var net := Run(EMPTY, [Poll(a, sx), Poll(b, sx), Poll(a, sy)]);
            DistinctIds(net) && b in net.nodes && !Indexed(net, b)
  {
    var sx, sy := NodeState(x, map[], [], t), NodeState(y, map[], [], t);
    RunOfThree(Poll(a, sx), Poll(b, sx), Poll(a, sy));
  }

  // ---------- health ----------

  /** `p` counts as a healthy peer of `n`: another node's ID, known and connected. */
  predicate Healthy(net: Net, n: Node, p: PeerId)
    requires n in net.nodes
  {
    p in net.nodes[n].peers && p != net.nodes[n].peerId && net.nodes[n].peers[p] && p in net.index
  }

  function HealthyPairs(net: Net, names: set<Node>): set<(Node, PeerId)>
    requires names <= net.nodes.Keys
  {
    set n, p | n in names && p in net.nodes[n].peers && Healthy(net, n, p) :: (n, p)
  }

  /** A healthy peer of a node is another live node that currently reports the ID and to which the node is connected. */
  lemma HealthyMeaning(net: Net, names: set<Node>, n: Node, p: PeerId)
    requires Sound(net) && names <= net.nodes.Keys
    ensures (n, p) in HealthyPairs(net, names) <==>
            && n in names && p in net.nodes[n].peers && net.nodes[n].peers[p] && p != net.nodes[n].peerId
            && exists m :: m in net.nodes && m != n && net.nodes[m].peerId == p && p in net.index && net.index[p] == m
  {
    if n in names && p in net.nodes[n].peers && Healthy(net, n, p) {
      var m := net.index[p];
      assert m in net.nodes && m != n && net.nodes[m].peerId == p;
    }
  }

  lemma {:induction false} InjectionBound<X, Y>(s: set<X>, t: set<Y>, f: X -> Y)
    requires forall x :: x in s ==> f(x) in t
    requires forall x, y :: x in s && y in s && x != y ==> f(x) != f(y)
    ensures |s| <= |t|
  {
    if s != {} {
      var x :| x in s;
      InjectionBound(s - {x}, t - {f(x)}, f);
    }
  }

  /** A node has at most one healthy peer per other live node. */
  lemma PeersOfOne(net: Net, n: Node)
    requires Sound(net) && n in net.nodes
    ensures |HealthyPairs(net, {n})| <= |net.nodes| - 1
  {
    var owner := (np: (Node, PeerId)) => if np.1 in net.index then net.index[np.1] else n;
    var pairs, others := HealthyPairs(net, {n}), net.nodes.Keys - {n};
    forall np | np in pairs ensures owner(np) in others {
      assert net.nodes[net.index[np.1]].peerId == np.1;
    }
    forall u, v | u in pairs && v in pairs && u != v ensures owner(u) != owner(v) {
      if net.index[u.1] == net.index[v.1] {
        SoundIsInjective(net, u.1, v.1);
      }
    }
    InjectionBound(pairs, others, owner);
  }

  lemma PairsSplit(net: Net, names: set<Node>, n: Node)
    requires n in net.nodes && names <= net.nodes.Keys
    ensures |HealthyPairs(net, names + {n})| <= |HealthyPairs(net, names)| + |HealthyPairs(net, {n})|
  {
    assert HealthyPairs(net, names + {n}) == HealthyPairs(net, names) + HealthyPairs(net, {n});
  }

  lemma OneMore(k: nat, d: int)
    ensures (k + 1) * d == k * d + d
  {
  }

  lemma {:induction false} PeersOfAll(net: Net, names: set<Node>)
    requires Sound(net) && names <= net.nodes.Keys
    ensures |HealthyPairs(net, names)| <= |names| * (|net.nodes| - 1)
  {
    if names != {} {
      var n :| n in names;
      var rest := names - {n};
      PeersOfAll(net, rest);
      PeersOfOne(net, n);
      PairsSplit(net, rest, n);
      assert rest + {n} == names;
      OneMore(|rest|, |net.nodes| - 1);
    } else {
      assert HealthyPairs(net, names) == {};
    }
  }

  function Members(members: seq<Node>): set<Node> {
    set m | m in members
  }

  lemma {:induction false} MembersBound(members: seq<Node>)
    ensures |Members(members)| <= |members|
  {
    if members != [] {
      var n := |members| - 1;
      MembersBound(members[..n]);
      assert Members(members) == Members(members[..n]) + {members[n]};
    }
  }

  lemma SubsetSize<X>(s: set<X>, t: set<X>)
    requires s <= t
    ensures |s| <= |t|
  {
    InjectionBound(s, t, (x: X) => x);
  }

  /** N members can observe at most N * (N - 1) healthy peers. */
  lemma HealthyBound(net: Net, members: seq<Node>)
    requires Sound(net) && net.nodes.Keys <= Members(members)
    ensures |HealthyPairs(net, net.nodes.Keys)| <= |members| * (|members| - 1)
  {
    PeersOfAll(net, net.nodes.Keys);
    SubsetSize(net.nodes.Keys, Members(members));
    MembersBound(members);
    PairsMonotone(|net.nodes|, |members|);
  }

  lemma PairsMonotone(k: nat, n: nat)
    requires k <= n
    ensures k * (k - 1) <= n * (n - 1)
  {
    if k < n {
      PairsMonotone(k, n - 1);
      assert n * (n - 1) == (n - 1) * (n - 2) + 2 * (n - 1);
    }
  }

  /** `known` names, once each, the nodes whose IDs `st` reports as peers. */
  ghost predicate AreKnownPeers(index: Index, st: NodeState, known: seq<Node>) {
    && (forall m :: m in known <==>
          exists p :: p in st.peers && p != st.peerId && p in index && index[p] == m)
    && (forall i, j :: 0 <= i < j < |known| ==> known[i] != known[j])
  }

  /** A float64 quotient. */
  datatype Float = NaN | Infinity | Finite(r: real)

  function Quotient(a: nat, b: int): Float {
    if b == 0 then (if a == 0 then NaN else Infinity) else Finite(a as real / b as real)
  }

  class Network {
    const members: seq<Node>
    const expiration: Time

    var nodes: Nodes
    var nodesByPeerID: Index

    ghost predicate Valid()
      reads this
    {
      Sound(Net(nodes, nodesByPeerID)) && nodes.Keys <= Members(members)
    }

    constructor (members: seq<Node>, expiration: Time)
      ensures Valid() && Net(nodes, nodesByPeerID) == EMPTY
      ensures this.members == members && this.expiration == expiration
    {
      this.members, this.expiration := members, expiration;
      nodes, nodesByPeerID := map[], map[];
    }

    /** Drops every node that has been silent for too long, in any order: a run of expiries. */
    method Cleanup(now: Time) returns (ghost expiries: seq<Event>)
      requires Valid()
      modifies this
      ensures Valid()
      ensures forall n :: n in nodes <==> n in old(nodes) && now - old(nodes)[n].updatedAt <= expiration
      ensures forall n :: n in nodes ==> nodes[n] == old(nodes[n])
      ensures Net(nodes, nodesByPeerID) == Run(Net(old(nodes), old(nodesByPeerID)), expiries)
      ensures forall e :: e in expiries ==> e.Expire?
    {
      ghost var net0 := Net(nodes, nodesByPeerID);
      expiries := [];
      var left := nodes.Keys;
      while left != {}
        invariant Valid() && left <= nodes.Keys
        invariant forall n :: n in nodes <==>
          (n in net0.nodes && (n in left || now - net0.nodes[n].updatedAt <= expiration))
        invariant forall n :: n in nodes ==> nodes[n] == net0.nodes[n]
        invariant Net(nodes, nodesByPeerID) == Run(net0, expiries)
        invariant forall e :: e in expiries ==> e.Expire?
      {
        var n :| n in left;
        left := left - {n};
        if now - nodes[n].updatedAt > expiration {
          var st := nodes[n];
          assert (expiries + [Expire(n)])[..|expiries|] == expiries;
          expiries := expiries + [Expire(n)];
          nodes := nodes - {n};
          nodesByPeerID := nodesByPeerID - {st.peerId};
        }
      }
    }

    /** Stores a node's answer; `None` is a failed poll. */
    method PollNode(n: Node, answer: Option<(PeerId, map<PeerId, bool>)>, now: Time)
      requires Valid() && n in members
      modifies this
      ensures Valid()
      ensures Net(nodes, nodesByPeerID) ==
              if answer.None? then Net(old(nodes), old(nodesByPeerID))
              else Step(Net(old(nodes), old(nodesByPeerID)), Poll(n, NodeState(answer.value.0, answer.value.1, [], now)))
    {
      if answer.None? {
        return;
      }
      var (newPeerId, peers) := answer.value;
      if n in nodes {
        var oldPeerId := nodes[n].peerId;
        if oldPeerId != newPeerId {
          nodesByPeerID := nodesByPeerID - {oldPeerId};
        }
      }
      nodes := nodes[n := NodeState(newPeerId, peers, [], now)];
      nodesByPeerID := nodesByPeerID[newPeerId := n];
    }

    /** Names the known peers of one node: no name twice, never its own. */
    method KnownPeers(n: Node) returns (known: seq<Node>)
      requires Valid() && n in nodes
      ensures AreKnownPeers(nodesByPeerID, nodes[n], known)
      ensures n !in known && forall m :: m in known ==> m in nodes
    {
      var st := nodes[n];
      known := [];
      var left := st.peers.Keys;
      while left != {}
        invariant left <= st.peers.Keys
        invariant forall m :: m in known <==>
          exists p :: p in st.peers && p !in left && p != st.peerId && p in nodesByPeerID && nodesByPeerID[p] == m
        invariant forall i, j :: 0 <= i < j < |known| ==> known[i] != known[j]
      {
        var p :| p in left;
        left := left - {p};
        if p == st.peerId {
          continue;
        }
        if p in nodesByPeerID {
          assert forall q :: q in nodesByPeerID && nodesByPeerID[q] == nodesByPeerID[p] ==> q == p;
          assert nodesByPeerID[p] !in known;
          known := known + [nodesByPeerID[p]];
        }
      }
    }

    /** Refreshes the known peers of every node and nothing else. */
    method UpdateGraph()
      requires Valid()
      modifies this`nodes
      ensures Valid() && nodes.Keys == old(nodes).Keys
      ensures forall n :: n in nodes ==>
                && nodes[n] == old(nodes[n]).(knownPeers := nodes[n].knownPeers)
                && AreKnownPeers(nodesByPeerID, nodes[n], nodes[n].knownPeers)
                && n !in nodes[n].knownPeers
    {
      ghost var nodes0 := nodes;
      var left := nodes.Keys;
      while left != {}
        invariant Valid() && nodes.Keys == nodes0.Keys && left <= nodes.Keys
        invariant forall n :: n in nodes ==> nodes[n] == nodes0[n].(knownPeers := nodes[n].knownPeers)
        invariant forall n :: n in nodes && n !in left ==>
          AreKnownPeers(nodesByPeerID, nodes[n], nodes[n].knownPeers) && n !in nodes[n].knownPeers
      {
        var n :| n in left;
        left := left - {n};
        var known := KnownPeers(n);
        nodes := nodes[n := nodes[n].(knownPeers := known)];
      }
    }

    /** Counts the healthy peers and relates them to a fully connected network. */
    method ReportMetrics() returns (healthyPeers: nat, ratio: Float)
      requires Valid()
      ensures healthyPeers == |HealthyPairs(Net(nodes, nodesByPeerID), nodes.Keys)|
      ensures healthyPeers <= |members| * (|members| - 1)
      ensures ratio == Quotient(healthyPeers, |members| * (|members| - 1))
      ensures |members| >= 2 ==> ratio.Finite? && 0.0 <= ratio.r <= 1.0
      ensures |members| < 2 ==> ratio == NaN
    {
      ghost var net := Net(nodes, nodesByPeerID);
      healthyPeers := 0;
      var left := nodes.Keys;
      while left != {}
        invariant left <= nodes.Keys
        invariant healthyPeers == |HealthyPairs(net, nodes.Keys - left)|
      {
        var n :| n in left;
        var more := CountHealthy(n);
        assert HealthyPairs(net, nodes.Keys - (left - {n})) == HealthyPairs(net, nodes.Keys - left) + HealthyPairs(net, {n});
        healthyPeers := healthyPeers + more;
        left := left - {n};
      }
      assert nodes.Keys - left == nodes.Keys;
      HealthyBound(net, members);
      var expected := |members| * (|members| - 1);
      ratio := Quotient(healthyPeers, expected);
      RatioBound(healthyPeers, |members|);
    }

    method CountHealthy(n: Node) returns (count: nat)
      requires n in nodes
      ensures count == |HealthyPairs(Net(nodes, nodesByPeerID), {n})|
    {
      var st := nodes[n];
      ghost var seen: set<(Node, PeerId)> := {};
      count := 0;
      var left := st.peers.Keys;
      while left != {}
        invariant left <= st.peers.Keys && count == |seen|
        invariant forall np :: np in seen <==> np in HealthyPairs(Net(nodes, nodesByPeerID), {n}) && np.1 !in left
      {
        var p :| p in left;
        left := left - {p};
        if p == st.peerId {
          continue;
        }
        var known := p in nodesByPeerID;
        var healthy := st.peers[p] && known;
        if healthy {
          count := count + 1;
          seen := seen + {(n, p)};
        }
      }
      assert seen == HealthyPairs(Net(nodes, nodesByPeerID), {n});
    }
  }

  lemma RatioBound(healthy: nat, n: nat)
    requires healthy <= n * (n - 1)
    ensures n >= 2 ==> Quotient(healthy, n * (n - 1)).Finite? && 0.0 <= Quotient(healthy, n * (n - 1)).r <= 1.0
    ensures n < 2 ==> Quotient(healthy, n * (n - 1)) == NaN
  {
    if n >= 2 {
      assert n * (n - 1) >= 2;
    } else {
      assert n * (n - 1) == 0;
    }
  }
}
