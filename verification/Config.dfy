/** Node lists of a channel configuration: parsed lists, and the roles derived from them. */
module Config {
  type NodeId = string

  datatype Node = Node(id: NodeId, name: string, host: string, port: int)

  datatype Lookup = Missing | Found(node: Node)

  datatype Role = Invalid | Data | Compute | Result

  /** What the rest of the library reads: the node lists, and the ids per primary role. */
  datatype Roles = Roles(
    data: seq<Node>, compute: seq<Node>, result: seq<Node>,
    pureData: seq<NodeId>, computeIds: seq<NodeId>, pureResult: seq<NodeId>)

  function Ids(nodes: seq<Node>): (ids: seq<NodeId>)
    ensures |ids| == |nodes|
    ensures forall i :: 0 <= i < |nodes| ==> ids[i] == nodes[i].id
  {
    seq(|nodes|, i requires 0 <= i < |nodes| => nodes[i].id)
  }

  /** The ids without those of the second list, order kept. */
  function Without(ids: seq<NodeId>, banned: seq<NodeId>): seq<NodeId>
  {
    if ids == [] then []
    else (if ids[0] in banned then [] else [ids[0]]) + Without(ids[1..], banned)
  }

  /** The nodes without those that share an id with the second list, order kept. */
  function WithoutNodes(nodes: seq<Node>, banned: seq<NodeId>): seq<Node>
  {
    if nodes == [] then []
    else (if nodes[0].id in banned then [] else [nodes[0]]) + WithoutNodes(nodes[1..], banned)
  }

  /** The nodes of the ids that have node information. */
  function Known(ids: seq<NodeId>, info: map<NodeId, Node>): seq<Node>
  {
    if ids == [] then []
    else (if ids[0] in info then [info[ids[0]]] else []) + Known(ids[1..], info)
  }

  predicate Keyed(info: map<NodeId, Node>)
  {
    forall id :: id in info ==> info[id].id == id
  }

  /** The roles of a configuration with these lists. */
  function Derive(info: map<NodeId, Node>, data: seq<NodeId>, compute: seq<NodeId>, result: seq<NodeId>): Roles
  {
    var computeP := Known(compute, info);
    var dataP := WithoutNodes(Known(data, info), Ids(computeP));
    var pureData := Without(data, compute);
    Roles(dataP, computeP, WithoutNodes(Known(result, info), Ids(computeP) + Ids(dataP)),
          pureData, compute, Without(result, compute + pureData))
  }

  function Find(nodes: seq<Node>, id: NodeId): Lookup
  {
    if nodes == [] then Missing
    else if nodes[0].id == id then Found(nodes[0])
    else Find(nodes[1..], id)
  }

  function Locate(r: Roles, id: NodeId): Lookup
  {
    if Find(r.data, id).Found? then Find(r.data, id)
    else if Find(r.compute, id).Found? then Find(r.compute, id)
    else Find(r.result, id)
  }

  function PrimaryRole(r: Roles, id: NodeId): Role
  {
    if id in r.pureData then Data
    else if id in r.computeIds then Compute
    else if id in r.pureResult then Result
    else Invalid
  }

  // ---------------------------------------------------------------- the filters

  lemma {:induction false} WithoutHas(ids: seq<NodeId>, banned: seq<NodeId>, id: NodeId)
    ensures id in Without(ids, banned) <==> id in ids && id !in banned
  {
    if ids != [] {
      WithoutHas(ids[1..], banned, id);
    }
  }

  lemma {:induction false} WithoutNodesHas(nodes: seq<Node>, banned: seq<NodeId>, n: Node)
    ensures n in WithoutNodes(nodes, banned) <==> n in nodes && n.id !in banned
  {
    if nodes != [] {
      WithoutNodesHas(nodes[1..], banned, n);
    }
  }

  lemma {:induction false} KnownHas(ids: seq<NodeId>, info: map<NodeId, Node>, n: Node)
    requires Keyed(info)
    ensures n in Known(ids, info) <==> n.id in ids && n.id in info && info[n.id] == n
  {
    if ids != [] {
      KnownHas(ids[1..], info, n);
    }
  }

  lemma IdsHas(nodes: seq<Node>, id: NodeId)
    ensures id in Ids(nodes) <==> exists n :: n in nodes && n.id == id
  {
    if id in Ids(nodes) {
      var i :| 0 <= i < |nodes| && Ids(nodes)[i] == id;
      assert nodes[i] in nodes;
    }
    if n :| n in nodes && n.id == id {
      var i :| 0 <= i < |nodes| && nodes[i] == n;
      assert Ids(nodes)[i] == id;
    }
  }

  lemma {:induction false} FindHas(nodes: seq<Node>, id: NodeId)
    ensures Find(nodes, id).Found? <==> id in Ids(nodes)
    ensures Find(nodes, id).Found? ==> Find(nodes, id).node in nodes && Find(nodes, id).node.id == id
  {
    if nodes != [] {
      FindHas(nodes[1..], id);
      assert Ids(nodes) == [nodes[0].id] + Ids(nodes[1..]);
    }
  }

  lemma KnownIds(ids: seq<NodeId>, info: map<NodeId, Node>, id: NodeId)
    requires Keyed(info)
    ensures id in Ids(Known(ids, info)) <==> id in ids && id in info
  {
    IdsHas(Known(ids, info), id);
    forall n: Node ensures n in Known(ids, info) <==> n.id in ids && n.id in info && info[n.id] == n {
      KnownHas(ids, info, n);
    }
    if id in ids && id in info {
      assert info[id] in Known(ids, info);
    }
  }

  lemma FilteredIds(nodes: seq<Node>, banned: seq<NodeId>, id: NodeId)
    ensures id in Ids(WithoutNodes(nodes, banned)) <==> id in Ids(nodes) && id !in banned
  {
    IdsHas(nodes, id);
    IdsHas(WithoutNodes(nodes, banned), id);
    forall n: Node ensures n in WithoutNodes(nodes, banned) <==> n in nodes && n.id !in banned {
      WithoutNodesHas(nodes, banned, n);
    }
  }

  // ---------------------------------------------------------------- the roles

  /** Which list holds an id, after the lists have been made disjoint. */
  lemma WhoHolds(info: map<NodeId, Node>, data: seq<NodeId>, compute: seq<NodeId>, result: seq<NodeId>, id: NodeId)
    requires Keyed(info)
    ensures var r := Derive(info, data, compute, result);
      && (id in Ids(r.compute) <==> id in info && id in compute)
      && (id in Ids(r.data) <==> id in info && id in data && id !in compute)
      && (id in Ids(r.result) <==> id in info && id in result && id !in compute && id !in data)
  {
    var r := Derive(info, data, compute, result);
    KnownIds(data, info, id);
    KnownIds(compute, info, id);
    KnownIds(result, info, id);
    FilteredIds(Known(data, info), Ids(r.compute), id);
    FilteredIds(Known(result, info), Ids(r.compute) + Ids(r.data), id);
  }

  lemma WhoIsPrimary(info: map<NodeId, Node>, data: seq<NodeId>, compute: seq<NodeId>, result: seq<NodeId>, id: NodeId)
    ensures var r := Derive(info, data, compute, result);
      PrimaryRole(r, id) ==
        if id in compute then Compute else if id in data then Data else if id in result then Result else Invalid
  {
    WithoutHas(data, compute, id);
    WithoutHas(result, compute + Without(data, compute), id);
  }

  /** The role partition. The three lists are disjoint by id and together hold what they held before; an
      id is found exactly when it is listed and has node information, and then its primary role names
      the one list that holds it, and is not Invalid. */
  lemma RolePartition(info: map<NodeId, Node>, data: seq<NodeId>, compute: seq<NodeId>, result: seq<NodeId>, id: NodeId)
    requires Keyed(info)
    ensures var r := Derive(info, data, compute, result);
      && !(id in Ids(r.data) && id in Ids(r.compute))
      && !(id in Ids(r.data) && id in Ids(r.result))
      && !(id in Ids(r.compute) && id in Ids(r.result))
      && (id in Ids(r.data) + Ids(r.compute) + Ids(r.result) <==>
            id in Ids(Known(data, info)) + Ids(Known(compute, info)) + Ids(Known(result, info)))
      && (Locate(r, id).Found? <==> id in info && (id in data || id in compute || id in result))
      && (Locate(r, id).Found? ==> Locate(r, id).node == info[id])
      && (Locate(r, id).Found? ==>
            match PrimaryRole(r, id)
            case Data => info[id] in r.data
            case Compute => info[id] in r.compute
            case Result => info[id] in r.result
            case Invalid => false)
  {
    var r := Derive(info, data, compute, result);
    WhoHolds(info, data, compute, result, id);
    WhoIsPrimary(info, data, compute, result, id);
    KnownIds(data, info, id);
    KnownIds(compute, info, id);
    KnownIds(result, info, id);
    FindHas(r.data, id);
    FindHas(r.compute, id);
    FindHas(r.result, id);
    NodesFromInfo(info, data, compute, result, id);
  }

  /** Every node in the lists is the one the node information has for its id. */
  lemma NodesFromInfo(info: map<NodeId, Node>, data: seq<NodeId>, compute: seq<NodeId>, result: seq<NodeId>, id: NodeId)
    requires Keyed(info)
    ensures var r := Derive(info, data, compute, result);
      forall n :: (n in r.data || n in r.compute || n in r.result) && n.id == id ==> id in info && n == info[id]
    ensures var r := Derive(info, data, compute, result);
      && (id in Ids(r.data) ==> info[id] in r.data)
      && (id in Ids(r.compute) ==> info[id] in r.compute)
      && (id in Ids(r.result) ==> info[id] in r.result)
  {
    var r := Derive(info, data, compute, result);
    forall n | (n in r.data || n in r.compute || n in r.result) && n.id == id ensures id in info && n == info[id] {
      KnownHas(data, info, n);
      KnownHas(compute, info, n);
      KnownHas(result, info, n);
      WithoutNodesHas(Known(data, info), Ids(r.compute), n);
      WithoutNodesHas(Known(result, info), Ids(r.compute) + Ids(r.data), n);
    }
    IdsHas(r.data, id);
    IdsHas(r.compute, id);
    IdsHas(r.result, id);
  }

  predicate Subsequence<T(==)>(a: seq<T>, b: seq<T>)
    decreases |b|
  {
    if a == [] then true
    else b != [] && ((a[0] == b[0] && Subsequence(a[1..], b[1..])) || Subsequence(a, b[1..]))
  }

  /** Order is kept: the nodes that stay are a subsequence. */
  lemma {:induction false} WithoutNodesOrder(nodes: seq<Node>, banned: seq<NodeId>)
    ensures Subsequence(WithoutNodes(nodes, banned), nodes)
  {
    if nodes != [] {
      var rest := WithoutNodes(nodes[1..], banned);
      WithoutNodesOrder(nodes[1..], banned);
      if nodes[0].id in banned {
        assert WithoutNodes(nodes, banned) == rest;
      } else {
        assert WithoutNodes(nodes, banned)[1..] == rest;
      }
    }
  }

  /** ... and all copies stay or go together. */
  lemma {:induction false} WithoutNodesCount(nodes: seq<Node>, banned: seq<NodeId>, n: Node)
    ensures multiset(WithoutNodes(nodes, banned))[n] == if n.id in banned then 0 else multiset(nodes)[n]
  {
    if nodes != [] {
      WithoutNodesCount(nodes[1..], banned, n);
      assert nodes == [nodes[0]] + nodes[1..];
      if nodes[0].id in banned {
        assert WithoutNodes(nodes, banned) == WithoutNodes(nodes[1..], banned);
      }
    }
  }

  lemma {:induction false} WithoutOrder(ids: seq<NodeId>, banned: seq<NodeId>)
    ensures Subsequence(Without(ids, banned), ids)
  {
    if ids != [] {
      var rest := Without(ids[1..], banned);
      WithoutOrder(ids[1..], banned);
      if ids[0] in banned {
        assert Without(ids, banned) == rest;
      } else {
        assert Without(ids, banned)[1..] == rest;
      }
    }
  }

  lemma {:induction false} WithoutCount(ids: seq<NodeId>, banned: seq<NodeId>, id: NodeId)
    ensures multiset(Without(ids, banned))[id] == if id in banned then 0 else multiset(ids)[id]
  {
    if ids != [] {
      WithoutCount(ids[1..], banned, id);
      assert ids == [ids[0]] + ids[1..];
      if ids[0] in banned {
        assert Without(ids, banned) == Without(ids[1..], banned);
      }
    }
  }

  /** The nodes looked up come in the order of their ids, each as often as its id, if it has node information. */
  lemma {:induction false} KnownOrder(ids: seq<NodeId>, info: map<NodeId, Node>)
    requires Keyed(info)
    ensures Subsequence(Ids(Known(ids, info)), ids)
  {
    if ids != [] {
      var rest := Known(ids[1..], info);
      KnownOrder(ids[1..], info);
      if ids[0] in info {
        assert Ids(Known(ids, info)) == [ids[0]] + Ids(rest);
        assert Ids(Known(ids, info))[1..] == Ids(rest);
      } else {
        assert Known(ids, info) == rest;
      }
    }
  }

  lemma {:induction false} KnownCount(ids: seq<NodeId>, info: map<NodeId, Node>, id: NodeId)
    requires Keyed(info)
    ensures multiset(Ids(Known(ids, info)))[id] == if id in info then multiset(ids)[id] else 0
  {
    if ids != [] {
      KnownCount(ids[1..], info, id);
      assert ids == [ids[0]] + ids[1..];
      var rest := Known(ids[1..], info);
      if ids[0] in info {
        assert Ids(Known(ids, info)) == [ids[0]] + Ids(rest);
      } else {
        assert Known(ids, info) == rest;
      }
    }
  }

  // ---------------------------------------------------------------- the configuration object

  /** The map of computation nodes, as its ordered list of entries. */
  function Insert(m: seq<(NodeId, int)>, key: NodeId, value: int): seq<(NodeId, int)>
  {
    if m == [] then [(key, value)]
    else if m[0].0 == key then m
    else if Less(key, m[0].0) then [(key, value)] + m
    else [m[0]] + Insert(m[1..], key, value)
  }

  function Keys(m: seq<(NodeId, int)>): (ids: seq<NodeId>)
    ensures |ids| == |m|
  {
    seq(|m|, i requires 0 <= i < |m| => m[i].0)
  }

  function InsertAll(members: seq<(NodeId, int)>): seq<(NodeId, int)>
  {
    if members == [] then []
    else
      var last := members[|members| - 1];
      Insert(InsertAll(members[..|members| - 1]), last.0, last.1)
  }

  /** The first entry for an id counts. */
  function InfoOf(entries: seq<Node>): map<NodeId, Node>
  {
    if entries == [] then map[]
    else
      var m, n := InfoOf(entries[..|entries| - 1]), entries[|entries| - 1];
      if n.id in m then m else m[n.id := n]
  }

  lemma {:induction false} InfoKeyed(entries: seq<Node>)
    ensures Keyed(InfoOf(entries))
  {
    if entries != [] {
      InfoKeyed(entries[..|entries| - 1]);
    }
  }

  /** The node information of an id is the first entry with that id, and there is some exactly when there is
      such an entry. */
  lemma {:induction false} InfoIsFirst(entries: seq<Node>, id: NodeId)
    ensures id in InfoOf(entries) <==> id in Ids(entries)
    ensures id in InfoOf(entries) ==>
      exists i :: 0 <= i < |entries| && entries[i] == InfoOf(entries)[id] && entries[i].id == id && id !in Ids(entries[..i])
  {
    if entries != [] {
      var n := |entries| - 1;
      var front := entries[..n];
      InfoIsFirst(front, id);
      assert Ids(entries) == Ids(front) + [entries[n].id];
      if id in InfoOf(front) {
        var i :| 0 <= i < n && front[i] == InfoOf(front)[id] && front[i].id == id && id !in Ids(front[..i]);
        assert entries[i] == front[i] && entries[..i] == front[..i];
      } else if id == entries[n].id {
        assert entries[..n] == front;
      }
    }
  }

  /** Lexicographic order on ids. */
  predicate Less(a: NodeId, b: NodeId)
  {
    if b == [] then false
    else if a == [] then true
    else a[0] < b[0] || (a[0] == b[0] && Less(a[1..], b[1..]))
  }

  lemma SamePrefix(a: NodeId, b: NodeId, k: nat)
    requires k <= |a| && k <= |b| && a[..k] == b[..k]
    ensures forall i :: 0 <= i < k ==> a[i] == b[i]
  {
    assert forall i :: 0 <= i < k ==> a[i] == a[..k][i] && b[i] == b[..k][i];
  }

  /** a comes before b exactly when it is a proper prefix of b, or has the smaller character where they first
      differ. */
  lemma {:induction false} LessExactly(a: NodeId, b: NodeId)
    ensures Less(a, b) <==>
      exists k :: 0 <= k <= |a| && k < |b| && a[..k] == b[..k] && (k == |a| || a[k] < b[k])
  {
    if a == [] {
      assert b != [] ==> a[..0] == b[..0];
    } else if b != [] {
      LessExactly(a[1..], b[1..]);
      if a[0] == b[0] {
        if k :| 0 <= k <= |a[1..]| && k < |b[1..]| && a[1..][..k] == b[1..][..k] && (k == |a[1..]| || a[1..][k] < b[1..][k]) {
          assert a[..k + 1] == [a[0]] + a[1..][..k] && b[..k + 1] == [b[0]] + b[1..][..k];
          assert a[..k + 1] == b[..k + 1];
        }
        if k :| 0 <= k <= |a| && k < |b| && a[..k] == b[..k] && (k == |a| || a[k] < b[k]) {
          assert k > 0;
          assert a[1..][..k - 1] == a[..k][1..] && b[1..][..k - 1] == b[..k][1..];
        }
      } else {
        if a[0] < b[0] {
          assert a[..0] == b[..0];
        }
        if k :| 0 <= k <= |a| && k < |b| && a[..k] == b[..k] && (k == |a| || a[k] < b[k]) {
          SamePrefix(a, b, k);
        }
      }
    }
  }

  lemma {:induction false} LessIsTotal(a: NodeId, b: NodeId)
    ensures a == b ==> !Less(a, b)
    ensures a != b ==> (Less(a, b) <==> !Less(b, a))
  {
    if a != [] && b != [] {
      LessIsTotal(a[1..], b[1..]);
      assert a == [a[0]] + a[1..] && b == [b[0]] + b[1..];
    }
  }

  lemma {:induction false} KnownSnoc(ids: seq<NodeId>, info: map<NodeId, Node>, id: NodeId)
    ensures Known(ids + [id], info) == Known(ids, info) + if id in info then [info[id]] else []
  {
    if ids != [] {
      assert (ids + [id])[1..] == ids[1..] + [id];
      KnownSnoc(ids[1..], info, id);
    }
  }

  lemma {:induction false} LessTransitive(a: NodeId, b: NodeId, c: NodeId)
    requires Less(a, b) && Less(b, c)
    ensures Less(a, c)
  {
    if a != [] && a[0] == b[0] && b[0] == c[0] {
      LessTransitive(a[1..], b[1..], c[1..]);
    }
  }

  predicate Ascending(m: seq<(NodeId, int)>)
  {
    forall i, j :: 0 <= i < j < |m| ==> Less(m[i].0, m[j].0)
  }

  /** Inserting keeps the entries in order, and an entry that is there as it is. */
  lemma {:induction false} InsertKeeps(m: seq<(NodeId, int)>, key: NodeId, value: int)
    requires Ascending(m)
    ensures Ascending(Insert(m, key, value))
    ensures forall e :: e in Insert(m, key, value) <==>
      e in m || (e == (key, value) && key !in Keys(m))
  {
    if m != [] {
      var rest := Insert(m[1..], key, value);
      InsertKeeps(m[1..], key, value);
      assert Keys(m) == [m[0].0] + Keys(m[1..]);
      LessIsTotal(key, m[0].0);
      if m[0].0 != key && Less(key, m[0].0) {
        forall i | 0 <= i < |m| ensures Less(key, m[i].0) {
          if i > 0 { LessTransitive(key, m[0].0, m[i].0); }
        }
        AbsentBelow(m, key);
      } else if m[0].0 != key {
        forall e | e in rest ensures Less(m[0].0, e.0) {
          assert e in m[1..] || e == (key, value);
        }
      } else {
        assert Keys(m)[0] == key;
      }
    }
  }

  lemma AbsentBelow(m: seq<(NodeId, int)>, key: NodeId)
    requires forall i :: 0 <= i < |m| ==> Less(key, m[i].0)
    ensures key !in Keys(m)
  {
    LessIsTotal(key, key);
  }

  /** The first member of that name counts. */
  predicate IsFirst(members: seq<(NodeId, int)>, i: int)
    requires 0 <= i < |members|
  {
    members[i].0 !in Keys(members[..i])
  }

  /** The map built from a list of members is in the order of the ids, and its entries are precisely the
      first members of their names. */
  lemma {:induction false} InsertAllKeeps(members: seq<(NodeId, int)>)
    ensures Ascending(InsertAll(members))
    ensures forall e :: e in InsertAll(members) <==> exists i :: 0 <= i < |members| && members[i] == e && IsFirst(members, i)
  {
    if members != [] {
      var n := |members| - 1;
      var front, last := members[..n], members[n];
      InsertAllKeeps(front);
      InsertKeeps(InsertAll(front), last.0, last.1);
      assert forall i :: 0 <= i < n ==> front[..i] == members[..i];
      forall e ensures e in InsertAll(members) <==> exists i :: 0 <= i < |members| && members[i] == e && IsFirst(members, i) {
        NamesKept(front, last.0);
        if i :| 0 <= i < n && front[i] == e && IsFirst(front, i) {
          assert members[i] == e && IsFirst(members, i);
        }
        if i :| 0 <= i < |members| && members[i] == e && IsFirst(members, i) {
          assert i < n ==> front[i] == e && IsFirst(front, i);
        }
        assert last.0 !in Keys(front) <==> IsFirst(members, n);
      }
    }
  }

  /** The names in the map are precisely those of the members. */
  lemma {:induction false} NamesKept(members: seq<(NodeId, int)>, id: NodeId)
    ensures id in Keys(InsertAll(members)) <==> id in Keys(members)
  {
    if members != [] {
      var n := |members| - 1;
      NamesKept(members[..n], id);
      InsertNames(InsertAll(members[..n]), members[n].0, members[n].1, id);
      assert Keys(members) == Keys(members[..n]) + [members[n].0];
    }
  }

  lemma {:induction false} InsertNames(m: seq<(NodeId, int)>, key: NodeId, value: int, id: NodeId)
    ensures id in Keys(Insert(m, key, value)) <==> id in Keys(m) || id == key
  {
    if m != [] {
      InsertNames(m[1..], key, value, id);
      assert Keys(m) == [m[0].0] + Keys(m[1..]);
      var rest := Insert(m[1..], key, value);
      assert Keys([m[0]] + rest) == [m[0].0] + Keys(rest);
      assert Keys([(key, value)] + m) == [key] + Keys(m);
    } else {
      assert Keys([(key, value)]) == [key];
    }
  }

  /** One step of erasing in place: past an element that stays, or with one erased. */
  lemma WithoutAt(v: seq<NodeId>, i: nat, banned: seq<NodeId>)
    requires i < |v|
    ensures var w := v[..i] + v[i + 1..];
      if v[i] in banned then w[..i] + Without(w[i..], banned) == v[..i] + Without(v[i..], banned)
      else v[..i + 1] + Without(v[i + 1..], banned) == v[..i] + Without(v[i..], banned)
  {
    var w := v[..i] + v[i + 1..];
    assert w[..i] == v[..i] && w[i..] == v[i + 1..] && v[i..][1..] == v[i + 1..];
  }

  lemma WithoutNodesAt(v: seq<Node>, i: nat, banned: seq<NodeId>)
    requires i < |v|
    ensures var w := v[..i] + v[i + 1..];
      if v[i].id in banned then w[..i] + WithoutNodes(w[i..], banned) == v[..i] + WithoutNodes(v[i..], banned)
      else v[..i + 1] + WithoutNodes(v[i + 1..], banned) == v[..i] + WithoutNodes(v[i..], banned)
  {
    var w := v[..i] + v[i + 1..];
    assert w[..i] == v[..i] && w[i..] == v[i + 1..] && v[i..][1..] == v[i + 1..];
  }

  class ChannelConfig {
    var nodeInfo: map<NodeId, Node>
    var dataNodes: seq<NodeId>
    var pureDataNodes: seq<NodeId>
    var computeNodes: seq<(NodeId, int)>
    var resultNodes: seq<NodeId>
    var pureResultNodes: seq<NodeId>
    var dataP: seq<Node>
    var computeP: seq<Node>
    var resultP: seq<Node>

    ghost function View(): Roles
      reads this
    {
      Roles(dataP, computeP, resultP, pureDataNodes, Keys(computeNodes), pureResultNodes)
    }

    /** Parse the lists of a document, then derive the roles. */
    constructor (entries: seq<Node>, data: seq<NodeId>, compute: seq<(NodeId, int)>, result: seq<NodeId>)
      ensures View() == Derive(InfoOf(entries), data, Keys(InsertAll(compute)), result)
      ensures computeNodes == InsertAll(compute) && Ascending(computeNodes)
      ensures forall id :: id in View().computeIds <==> id in Keys(compute)
    {
      nodeInfo, dataNodes, pureDataNodes, computeNodes := map[], [], [], [];
      resultNodes, pureResultNodes, dataP, computeP, resultP := [], [], [], [], [];
      new;
      ParseNodeInfo(entries);
      dataNodes := data;
      dataP := Lookups(data);
      ParseCompute(compute);
      resultNodes := result;
      resultP := Lookups(result);
      ProcessNodeType();
    }

    method ParseNodeInfo(entries: seq<Node>)
      requires nodeInfo == map[]
      modifies this`nodeInfo
      ensures nodeInfo == InfoOf(entries)
    {
      for i := 0 to |entries|
        invariant nodeInfo == InfoOf(entries[..i])
      {
        assert entries[..i + 1][..i] == entries[..i];
        if entries[i].id !in nodeInfo {
          nodeInfo := nodeInfo[entries[i].id := entries[i]];
        }
      }
      assert entries[..|entries|] == entries;
    }

    /** The nodes of a list of ids; an id without node information is skipped. */
    method Lookups(ids: seq<NodeId>) returns (nodes: seq<Node>)
      ensures nodes == Known(ids, nodeInfo)
    {
      nodes := [];
      for i := 0 to |ids|
        invariant nodes == Known(ids[..i], nodeInfo)
      {
        assert ids[..i + 1] == ids[..i] + [ids[i]];
        KnownSnoc(ids[..i], nodeInfo, ids[i]);
        if ids[i] in nodeInfo {
          nodes := nodes + [nodeInfo[ids[i]]];
        }
      }
      assert ids[..|ids|] == ids;
    }

    method ParseCompute(members: seq<(NodeId, int)>)
      requires computeNodes == []
      modifies this`computeNodes, this`computeP
      ensures computeNodes == InsertAll(members) && Ascending(computeNodes)
      ensures forall id :: id in Keys(computeNodes) <==> id in Keys(members)
      ensures computeP == Known(Keys(computeNodes), nodeInfo)
    {
      for i := 0 to |members|
        invariant computeNodes == InsertAll(members[..i])
      {
        assert members[..i + 1][..i] == members[..i];
        computeNodes := Insert(computeNodes, members[i].0, members[i].1);
      }
      assert members[..|members|] == members;
      computeP := Lookups(Keys(computeNodes));
      InsertAllKeeps(members);
      forall id ensures id in Keys(computeNodes) <==> id in Keys(members) {
        NamesKept(members, id);
      }
    }

    /** Erase from a list of ids, in place, those that are in another. */
    static method EraseIds(ids: seq<NodeId>, banned: seq<NodeId>) returns (v: seq<NodeId>)
      ensures v == Without(ids, banned)
    {
      v := ids;
      var i := 0;
      while i < |v|
        invariant i <= |v|
        invariant v[..i] + Without(v[i..], banned) == Without(ids, banned)
        decreases |v| - i
      {
        WithoutAt(v, i, banned);
        if v[i] in banned {
          v := v[..i] + v[i + 1..];
        } else {
          i := i + 1;
        }
      }
    }

    /** Erase from a list of nodes, in place, those whose id another list has. */
    static method EraseNodes(nodes: seq<Node>, banned: seq<NodeId>) returns (v: seq<Node>)
      ensures v == WithoutNodes(nodes, banned)
    {
      v := nodes;
      var i := 0;
      while i < |v|
        invariant i <= |v|
        invariant v[..i] + WithoutNodes(v[i..], banned) == WithoutNodes(nodes, banned)
        decreases |v| - i
      {
        WithoutNodesAt(v, i, banned);
        if v[i].id in banned {
          v := v[..i] + v[i + 1..];
        } else {
          i := i + 1;
        }
      }
    }

    method ProcessNodeType()
      requires dataP == Known(dataNodes, nodeInfo) && resultP == Known(resultNodes, nodeInfo)
      requires computeP == Known(Keys(computeNodes), nodeInfo)
      modifies this
      ensures View() == Derive(nodeInfo, dataNodes, Keys(computeNodes), resultNodes)
      ensures nodeInfo == old(nodeInfo) && dataNodes == old(dataNodes)
      ensures computeNodes == old(computeNodes) && resultNodes == old(resultNodes)
    {
      pureDataNodes := EraseIds(dataNodes, Keys(computeNodes));
      pureResultNodes := EraseIds(resultNodes, Keys(computeNodes) + pureDataNodes);
      dataP := EraseNodes(dataP, Ids(computeP));
      resultP := EraseNodes(resultP, Ids(computeP) + Ids(dataP));
    }

    method GetPrimaryNodeType(id: NodeId) returns (role: Role)
      ensures role == PrimaryRole(View(), id)
    {
      for i := 0 to |pureDataNodes|
        invariant id !in pureDataNodes[..i]
      {
        if id == pureDataNodes[i] { return Data; }
      }
      for i := 0 to |computeNodes|
        invariant id !in Keys(computeNodes)[..i]
      {
        if id == computeNodes[i].0 {
          assert Keys(computeNodes)[i] == id;
          return Compute;
        }
      }
      for i := 0 to |pureResultNodes|
        invariant id !in pureResultNodes[..i]
      {
        if id == pureResultNodes[i] { return Result; }
      }
      return Invalid;
    }

    method GetNode(id: NodeId) returns (found: Lookup)
      ensures found == Locate(View(), id)
    {
      found := Search(dataP, id);
      if found.Missing? {
        found := Search(computeP, id);
      }
      if found.Missing? {
        found := Search(resultP, id);
      }
    }

    static method Search(nodes: seq<Node>, id: NodeId) returns (found: Lookup)
      ensures found == Find(nodes, id)
    {
      for i := 0 to |nodes|
        invariant Find(nodes, id) == Find(nodes[i..], id)
      {
        if nodes[i].id == id {
          return Found(nodes[i]);
        }
        assert nodes[i..][1..] == nodes[i + 1..];
      }
      return Missing;
    }
  }
}
