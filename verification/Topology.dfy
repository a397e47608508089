/** Who dials whom. Every node derives, from the configuration they all share, the peers it dials and the
    peers it expects to be dialled by. */
module Topology {
  import opened Config

  datatype Infos = Infos(servers: seq<Node>, clients: seq<Node>)

  /** me dials peer: it cannot be dialled itself, or both can and its id comes first. */
  predicate Dials(me: Node, peer: Node)
  {
    me.port <= 0 || (peer.port > 0 && Less(me.id, peer.id))
  }

  function Others(nodes: seq<Node>, id: NodeId): seq<Node>
  {
    WithoutNodes(nodes, [id])
  }

  /** The peers of a node, in the order they are gone through. */
  function Peers(r: Roles, id: NodeId): seq<Node>
  {
    match PrimaryRole(r, id)
    case Data => r.compute
    case Compute => r.data + Others(r.compute, id) + r.result
    case Result => r.compute
    case Invalid => []
  }

  function Dialled(me: Node, peers: seq<Node>): seq<Node>
  {
    if peers == [] then []
    else
      var n := peers[|peers| - 1];
      Dialled(me, peers[..|peers| - 1]) + if Dials(me, n) then [n] else []
  }

  function Expected(me: Node, peers: seq<Node>): seq<Node>
  {
    if peers == [] then []
    else
      var n := peers[|peers| - 1];
      Expected(me, peers[..|peers| - 1]) + if Dials(me, n) then [] else [n]
  }

  function Derived(me: Node, peers: seq<Node>): Infos
  {
    Infos(Dialled(me, peers), Expected(me, peers))
  }

  lemma {:induction false} DerivedHas(me: Node, peers: seq<Node>, n: Node)
    ensures n in Dialled(me, peers) <==> n in peers && Dials(me, n)
    ensures n in Expected(me, peers) <==> n in peers && !Dials(me, n)
  {
    if peers != [] {
      DerivedHas(me, peers[..|peers| - 1], n);
      assert peers == peers[..|peers| - 1] + [peers[|peers| - 1]];
    }
  }

  /** Both lists keep the order of the peers. */
  lemma {:induction false} DerivedOrder(me: Node, peers: seq<Node>)
    ensures Subsequence(Dialled(me, peers), peers) && Subsequence(Expected(me, peers), peers)
  {
    if peers != [] {
      var front, last := peers[..|peers| - 1], peers[|peers| - 1];
      var d, e := Dialled(me, front), Expected(me, front);
      DerivedOrder(me, front);
      assert peers == front + [last];
      SubsequenceSnoc(d, front, last);
      SubsequenceSnoc(e, front, last);
      assert d + [] == d && e + [] == e;
    }
  }

  lemma DerivedSnoc(me: Node, peers: seq<Node>)
    requires peers != []
    ensures var front, last := peers[..|peers| - 1], peers[|peers| - 1];
      var d, e, d', e' := Dialled(me, front), Expected(me, front), Dialled(me, peers), Expected(me, peers);
      (d' == d + [last] && e' == e) || (d' == d && e' == e + [last])
  {
  }

  /** Each peer is in one of them as often as among the peers. */
  lemma {:induction false} DerivedCount(me: Node, peers: seq<Node>, n: Node)
    ensures multiset(Dialled(me, peers))[n] + multiset(Expected(me, peers))[n] == multiset(peers)[n]
  {
    if peers != [] {
      hide Dialled, Expected;
      var front, last := peers[..|peers| - 1], peers[|peers| - 1];
      DerivedCount(me, front, n);
      DerivedSnoc(me, peers);
      assert peers == front + [last];
      CountSplit(Dialled(me, front), Expected(me, front), front, last, Dialled(me, peers), Expected(me, peers), n);
    }
  }

  lemma CountSplit(d: seq<Node>, e: seq<Node>, front: seq<Node>, last: Node, d': seq<Node>, e': seq<Node>, n: Node)
    requires multiset(d)[n] + multiset(e)[n] == multiset(front)[n]
    requires (d' == d + [last] && e' == e) || (d' == d && e' == e + [last])
    ensures multiset(d')[n] + multiset(e')[n] == multiset(front + [last])[n]
  {
    CountSnoc(front, last, n);
    CountSnoc(if d' == d then e else d, last, n);
  }

  lemma CountSnoc(s: seq<Node>, x: Node, n: Node)
    ensures multiset(s + [x])[n] == multiset(s)[n] + if x == n then 1 else 0
  {
  }

  lemma {:induction false} SubsequenceSnoc<T>(a: seq<T>, b: seq<T>, x: T)
    requires Subsequence(a, b)
    ensures Subsequence(a, b + [x]) && Subsequence(a + [x], b + [x])
    decreases |b|
  {
    if b == [] {
      assert a + [x] == [x] && b + [x] == [x];
      assert [x][1..] == [];
    } else {
      assert (b + [x])[1..] == b[1..] + [x];
      if a != [] {
        assert (a + [x])[1..] == a[1..] + [x];
      } else {
        assert a + [x] == [x];
      }
      if a != [] && a[0] == b[0] && Subsequence(a[1..], b[1..]) {
        SubsequenceSnoc(a[1..], b[1..], x);
      } else {
        SubsequenceSnoc(a, b[1..], x);
      }
    }
  }

  method AddPeer(me: Node, n: Node, infos: Infos, ghost before: seq<Node>) returns (r: Infos)
    requires infos == Derived(me, before)
    ensures r == Derived(me, before + [n])
  {
    assert (before + [n])[..|before|] == before;
    if me.port <= 0 || (n.port > 0 && Less(me.id, n.id)) {
      r := infos.(servers := infos.servers + [n]);
    } else {
      r := infos.(clients := infos.clients + [n]);
    }
  }

  /** Go through a list of nodes, adding each to one of the two lists. */
  method AddPeers(me: Node, peers: seq<Node>, infos: Infos, ghost before: seq<Node>) returns (r: Infos)
    requires infos == Derived(me, before)
    ensures r == Derived(me, before + peers)
  {
    r := infos;
    assert before + peers[..0] == before;
    for i := 0 to |peers|
      invariant r == Derived(me, before + peers[..i])
    {
      r := AddPeer(me, peers[i], r, before + peers[..i]);
      assert before + peers[..i] + [peers[i]] == before + peers[..i + 1];
    }
    assert peers[..|peers|] == peers;
  }

  /** The same, leaving out the node itself. */
  method AddOthers(me: Node, peers: seq<Node>, infos: Infos, ghost before: seq<Node>) returns (r: Infos)
    requires infos == Derived(me, before)
    ensures r == Derived(me, before + Others(peers, me.id))
  {
    r := infos;
    ghost var seen := before;
    assert peers[0..] == peers;
    for i := 0 to |peers|
      invariant seen + Others(peers[i..], me.id) == before + Others(peers, me.id)
      invariant r == Derived(me, seen)
    {
      assert peers[i..][1..] == peers[i + 1..];
      if me.id != peers[i].id {
        r := AddPeer(me, peers[i], r, seen);
        OthersNext(seen, peers, i, me.id);
        seen := seen + [peers[i]];
      }
    }
    assert seen + [] == seen;
  }

  lemma OthersNext(seen: seq<Node>, peers: seq<Node>, i: nat, id: NodeId)
    requires i < |peers| && peers[i].id != id
    ensures seen + Others(peers[i..], id) == seen + [peers[i]] + Others(peers[i + 1..], id)
  {
    assert peers[i..][1..] == peers[i + 1..];
  }

  datatype Outcome = NoSuchNode | Lists(infos: Infos)

  /** What a node decides from the roles. */
  function Decision(r: Roles, nodeId: NodeId): Outcome
  {
    match Locate(r, nodeId)
    case Missing => NoSuchNode
    case Found(me) =>
      if PrimaryRole(r, nodeId).Invalid? then NoSuchNode else Lists(Derived(me, Peers(r, nodeId)))
  }

  /** The role-dependent part of creating a channel. */
  method DeriveInfos(config: ChannelConfig, nodeId: NodeId) returns (o: Outcome)
    ensures o == Decision(config.View(), nodeId)
  {
    var found := config.GetNode(nodeId);
    if found.Missing? {
      return NoSuchNode;
    }
    var me := found.node;
    LocatedId(config.View(), nodeId);
    var role := config.GetPrimaryNodeType(nodeId);
    var infos := Infos([], []);
    match role {
      case Data =>
        infos := AddPeers(me, config.computeP, infos, []);
      case Compute =>
        infos := AddPeers(me, config.dataP, infos, []);
        infos := AddOthers(me, config.computeP, infos, [] + config.dataP);
        infos := AddPeers(me, config.resultP, infos, [] + config.dataP + Others(config.computeP, me.id));
        assert [] + config.dataP == config.dataP;
      case Result =>
        infos := AddPeers(me, config.computeP, infos, []);
      case Invalid =>
        return NoSuchNode;
    }
    assert [] + config.computeP == config.computeP;
    o := Lists(infos);
  }

  lemma LocatedId(r: Roles, id: NodeId)
    ensures Locate(r, id).Found? ==> Locate(r, id).node.id == id
  {
    FindHas(r.data, id);
    FindHas(r.compute, id);
    FindHas(r.result, id);
  }

  // ---------------------------------------------------------------- agreement

  /** A shared configuration. */
  datatype Shared = Shared(info: map<NodeId, Node>, data: seq<NodeId>, compute: seq<NodeId>, result: seq<NodeId>)

  function RolesOf(c: Shared): Roles
  {
    Derive(c.info, c.data, c.compute, c.result)
  }

  predicate Listed(c: Shared, id: NodeId)
  {
    id in c.info && (id in c.data || id in c.compute || id in c.result)
  }

  function InfosOf(c: Shared, id: NodeId): Infos
    requires id in c.info
  {
    Derived(c.info[id], Peers(RolesOf(c), id))
  }

  /** Every listed node of a shared configuration decides on its lists; any other id is refused. */
  lemma DecisionIsInfos(c: Shared, id: NodeId)
    requires Keyed(c.info)
    ensures Decision(RolesOf(c), id) == if Listed(c, id) then Lists(InfosOf(c, id)) else NoSuchNode
  {
    RolePartition(c.info, c.data, c.compute, c.result, id);
  }

  /** Adjacency: two different nodes, at least one of which computes. */
  lemma WhoIsAdjacent(c: Shared, a: NodeId, b: NodeId)
    requires Keyed(c.info) && Listed(c, a) && Listed(c, b)
    ensures c.info[b] in Peers(RolesOf(c), a) <==> a != b && (a in c.compute || b in c.compute)
  {
    var r := RolesOf(c);
    WhoIsPrimary(c.info, c.data, c.compute, c.result, a);
    WhoHolds(c.info, c.data, c.compute, c.result, b);
    NodesFromInfo(c.info, c.data, c.compute, c.result, b);
    IdsHas(r.data, b);
    IdsHas(r.compute, b);
    IdsHas(r.result, b);
    WithoutNodesHas(r.compute, [a], c.info[b]);
  }

  /** Dial and listen agree. The decisions of two adjacent nodes about each other, taken independently,
      fit together (one dials and the other expects it) precisely when at least one of them has a positive
      port; without one, both dial. */
  lemma DialListenAgreement(c: Shared, a: NodeId, b: NodeId)
    requires Keyed(c.info) && Listed(c, a) && Listed(c, b)
    requires a != b && (a in c.compute || b in c.compute)
    ensures var ia, ib := InfosOf(c, a), InfosOf(c, b); var na, nb := c.info[a], c.info[b];
      && (nb in ia.servers <==> nb !in ia.clients)
      && (na in ib.servers <==> na !in ib.clients)
      && ((nb in ia.servers <==> na in ib.clients) <==> na.port > 0 || nb.port > 0)
      && (na.port <= 0 && nb.port <= 0 ==> nb in ia.servers && na in ib.servers)
  {
    WhoIsAdjacent(c, a, b);
    WhoIsAdjacent(c, b, a);
    DerivedHas(c.info[a], Peers(RolesOf(c), a), c.info[b]);
    DerivedHas(c.info[b], Peers(RolesOf(c), b), c.info[a]);
    LessIsTotal(a, b);
  }

  /** A computing node goes through data, compute and result nodes in this order, any other through the compute
      nodes. */
  lemma PeersInOrder(r: Roles, id: NodeId)
    ensures Subsequence(Peers(r, id), r.data + r.compute + r.result)
  {
    match PrimaryRole(r, id) {
      case Compute =>
        WithoutNodesOrder(r.compute, [id]);
        SubsequenceSelf(r.data);
        SubsequenceSelf(r.result);
        SubsequenceAppend(r.data, r.data, Others(r.compute, id), r.compute);
        SubsequenceAppend(r.data + Others(r.compute, id), r.data + r.compute, r.result, r.result);
      case Invalid =>
      case _ =>
        SubsequenceSelf(r.compute);
        SubsequenceAppend([], r.data, r.compute, r.compute);
        SubsequenceAppend([] + r.compute, r.data + r.compute, [], r.result);
        assert [] + r.compute + [] == r.compute;
    }
  }

  lemma {:induction false} SubsequenceSelf<T>(a: seq<T>)
    ensures Subsequence(a, a)
  {
    if a != [] {
      SubsequenceSelf(a[1..]);
    }
  }

  lemma {:induction false} SubsequenceAppend<T>(a: seq<T>, b: seq<T>, c: seq<T>, d: seq<T>)
    requires Subsequence(a, b) && Subsequence(c, d)
    ensures Subsequence(a + c, b + d)
    decreases |b|
  {
    if b == [] {
      assert a + c == c && b + d == d;
    } else {
      assert (b + d)[1..] == b[1..] + d;
      if a != [] && a[0] == b[0] && Subsequence(a[1..], b[1..]) {
        assert (a + c)[1..] == a[1..] + c;
        SubsequenceAppend(a[1..], b[1..], c, d);
      } else {
        SubsequenceAppend(a, b[1..], c, d);
      }
    }
  }

  /** Every peer comes from the shared node information. */
  lemma PeersFromInfo(c: Shared, id: NodeId, n: Node)
    requires Keyed(c.info) && n in Peers(RolesOf(c), id)
    ensures n.id in c.info && n == c.info[n.id]
  {
    NodesFromInfo(c.info, c.data, c.compute, c.result, n.id);
    WithoutNodesHas(RolesOf(c).compute, [id], n);
  }

  lemma InfosHave(c: Shared, id: NodeId, peer: NodeId)
    requires Keyed(c.info) && id in c.info
    ensures var i, ps := InfosOf(c, id), Peers(RolesOf(c), id);
      && (peer in Ids(i.servers) <==> peer in c.info && c.info[peer] in ps && Dials(c.info[id], c.info[peer]))
      && (peer in Ids(i.clients) <==> peer in c.info && c.info[peer] in ps && !Dials(c.info[id], c.info[peer]))
  {
    var i, ps := InfosOf(c, id), Peers(RolesOf(c), id);
    IdsHas(i.servers, peer);
    IdsHas(i.clients, peer);
    forall n ensures n in i.servers <==> n in ps && Dials(c.info[id], n)
      ensures n in i.clients <==> n in ps && !Dials(c.info[id], n)
      ensures n in ps ==> n.id in c.info && n == c.info[n.id]
    {
      DerivedHas(c.info[id], ps, n);
      if n in ps { PeersFromInfo(c, id, n); }
    }
  }

  /** Who dials whom, of two adjacent nodes: the one that cannot be dialled dials the one that can; of two that
      can, the one whose id comes first dials; two that cannot both dial, in vain. */
  lemma WhoDials(c: Shared, a: NodeId, b: NodeId)
    requires Keyed(c.info) && Listed(c, a) && Listed(c, b)
    requires a != b && (a in c.compute || b in c.compute)
    ensures var ia, ib := InfosOf(c, a), InfosOf(c, b); var pa, pb := c.info[a].port, c.info[b].port;
      && (pa > 0 && pb <= 0 ==>
            a in Ids(ib.servers) && a !in Ids(ib.clients) && b in Ids(ia.clients) && b !in Ids(ia.servers))
      && (pa > 0 && pb > 0 && Less(a, b) ==>
            b in Ids(ia.servers) && b !in Ids(ia.clients) && a in Ids(ib.clients) && a !in Ids(ib.servers))
      && (pa <= 0 && pb <= 0 ==> b in Ids(ia.servers) && a in Ids(ib.servers))
  {
    WhoIsAdjacent(c, a, b);
    WhoIsAdjacent(c, b, a);
    InfosHave(c, a, b);
    InfosHave(c, b, a);
    LessIsTotal(a, b);
  }

  /** Whoever a node that can be dialled dials, can be dialled. */
  lemma DialledListens(c: Shared, a: NodeId, b: NodeId)
    requires Keyed(c.info) && Listed(c, a) && c.info[a].port > 0
    ensures b in Ids(InfosOf(c, a).servers) ==> b in c.info && c.info[b].port > 0
  {
    InfosHave(c, a, b);
  }

  /** A node's two lists have no id in common, and neither has its own. */
  lemma ListsApart(c: Shared, id: NodeId, peer: NodeId)
    requires Keyed(c.info) && Listed(c, id)
    ensures var i := InfosOf(c, id); !(peer in Ids(i.servers) && peer in Ids(i.clients))
    ensures var i := InfosOf(c, id); id !in Ids(i.servers) && id !in Ids(i.clients)
  {
    InfosHave(c, id, peer);
    InfosHave(c, id, id);
    WhoIsAdjacent(c, id, id);
  }

  // ---------------------------------------------------------------- pairing ids with servers

  /** The ids a node waits for, in the order of its connecting threads: servers first, then clients. */
  method ExpectedIds(infos: Infos) returns (ids: seq<NodeId>)
    ensures ids == Ids(infos.servers) + Ids(infos.clients)
  {
    var cids := [];
    for i := 0 to |infos.clients|
      invariant cids == Ids(infos.clients)[..i]
    {
      cids := cids + [infos.clients[i].id];
    }
    ids := [];
    for i := 0 to |infos.servers|
      invariant ids == Ids(infos.servers)[..i]
    {
      ids := ids + [infos.servers[i].id];
    }
    ids := ids + cids;
  }

  /** Connecting thread j, when its id is one to dial, finds that very peer at position j of the servers. */
  lemma ThreadDialsItsPeer(c: Shared, id: NodeId)
    requires Keyed(c.info) && Listed(c, id)
    ensures var i := InfosOf(c, id); var ids := Ids(i.servers) + Ids(i.clients);
      forall j :: 0 <= j < |ids| && ids[j] in Ids(i.servers) ==> j < |i.servers| && i.servers[j].id == ids[j]
  {
    var i := InfosOf(c, id);
    var ids := Ids(i.servers) + Ids(i.clients);
    forall j | 0 <= j < |ids| && ids[j] in Ids(i.servers) ensures j < |i.servers| && i.servers[j].id == ids[j] {
      ListsApart(c, id, ids[j]);
    }
  }
}
