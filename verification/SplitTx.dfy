/** The host's splitter (split_tx_util.py): nodes are placed by id, from the highest down. */
module SplitTx {
  import opened Bytes
  import NodeTreeCheck
  import opened NodePhase
  import opened NodeTree
  import opened NodeMerkle
  import opened ReverseOrder

  /** A node of the JSON transaction and its integer id. */
  datatype HostNode = HostNode(id: int, part: NodePart)

  /** nodes_pb[len(nodes) - 1 - node_id] with Python's negative indices; None is an IndexError. */
  function Place(n: nat, id: int): (j: Option<nat>)
    ensures j.Some? <==> 0 <= id < 2 * n
    ensures j.Some? ==> j.value < n
  {
    var pos := n - 1 - id;
    if 0 <= pos + n && pos < n then (var j: nat := if pos < 0 then pos + n else pos; Some(j)) else None
  }

  /** What ends up at position j: the last node of the list that is placed there. */
  function Placed(n: nat, nodes: seq<HostNode>, j: nat): Option<NodePart>
  {
    if |nodes| == 0 then None
    else
      var last := nodes[|nodes| - 1];
      if Place(n, last.id) == Some(j) then Some(last.part) else Placed(n, nodes[..|nodes| - 1], j)
  }

  /** A node of this id lands at position j: counted from the front, or once around. */
  predicate LandsAt(n: nat, id: int, j: nat) { id == n - 1 - j || id == 2 * n - 1 - j }

  /** Node i is the last one that lands at position j. */
  predicate LastAt(n: nat, nodes: seq<HostNode>, j: nat, i: nat)
  {
    i < |nodes| && LandsAt(n, nodes[i].id, j) && forall k :: i < k < |nodes| ==> !LandsAt(n, nodes[k].id, j)
  }

  /** What a position holds: the last node that lands there, and nothing exactly when none does. */
  ghost predicate Holds(n: nat, nodes: seq<HostNode>, j: nat, part: Option<NodePart>)
  {
    (part.None? <==> forall i :: 0 <= i < |nodes| ==> !LandsAt(n, nodes[i].id, j)) &&
    forall i :: 0 <= i < |nodes| && LastAt(n, nodes, j, i) ==> part == Some(nodes[i].part)
  }

  lemma {:induction false} PlacedHolds(n: nat, nodes: seq<HostNode>, j: nat)
    requires j < n && forall i :: 0 <= i < |nodes| ==> 0 <= nodes[i].id < 2 * n
    ensures Holds(n, nodes, j, Placed(n, nodes, j))
  {
    if |nodes| > 0 {
      var k := |nodes| - 1;
      var before := nodes[..k];
      PlacedHolds(n, before, j);
      assert forall i :: 0 <= i < k ==> before[i] == nodes[i];
      assert Place(n, nodes[k].id) == Some(j) <==> LandsAt(n, nodes[k].id, j);
      forall i | 0 <= i < |nodes| && LastAt(n, nodes, j, i)
        ensures Placed(n, nodes, j) == Some(nodes[i].part)
      {
        assert i < k ==> LastAt(n, before, j, i);
      }
    }
  }

  /** The loop of _process_daml_transaction; None for the IndexError. */
  method Split(nodes: seq<HostNode>) returns (parts: Option<seq<Option<NodePart>>>)
    ensures parts.Some? <==> forall i :: 0 <= i < |nodes| ==> 0 <= nodes[i].id < 2 * |nodes|
    ensures parts.Some? ==> |parts.value| == |nodes|
    ensures parts.Some? ==> forall j :: 0 <= j < |nodes| ==> parts.value[j] == Placed(|nodes|, nodes, j) && Holds(|nodes|, nodes, j, parts.value[j])
  {
    var n := |nodes|;
    var pbs := new Option<NodePart>[n](_ => None);
    for i := 0 to n
      invariant forall k :: 0 <= k < i ==> 0 <= nodes[k].id < 2 * n
      invariant forall j :: 0 <= j < n ==> pbs[j] == Placed(n, nodes[..i], j)
    {
      var pos := n - 1 - nodes[i].id;
      if pos + n < 0 || pos >= n {
        return None;
      }
      pbs[if pos < 0 then pos + n else pos] := Some(nodes[i].part);
      assert nodes[..i + 1][..i] == nodes[..i];
    }
    assert nodes[..n] == nodes;
    forall j | 0 <= j < n
      ensures Holds(n, nodes, j, pbs[j])
    {
      PlacedHolds(n, nodes, j);
    }
    return Some(pbs[..]);
  }

  /** The ids are 0 .. n - 1, each once, in any order. */
  predicate IdsComplete(nodes: seq<HostNode>)
  {
    (forall i :: 0 <= i < |nodes| ==> 0 <= nodes[i].id < |nodes|) &&
    forall i, j :: 0 <= i < j < |nodes| ==> nodes[i].id != nodes[j].id
  }

  lemma {:induction false} PlacedIsTheNode(n: nat, nodes: seq<HostNode>, i: nat)
    requires i < |nodes|
    requires forall k :: 0 <= k < |nodes| ==> 0 <= nodes[k].id < n
    requires forall k, m :: 0 <= k < m < |nodes| ==> nodes[k].id != nodes[m].id
    ensures Placed(n, nodes, n - 1 - nodes[i].id) == Some(nodes[i].part)
  {
    if i < |nodes| - 1 {
      PlacedIsTheNode(n, nodes[..|nodes| - 1], i);
    }
  }

  /** A host list with ids 0 .. n - 1 is sent completely, from the highest id down, whatever its order. */
  lemma SplitSendsInReverse(nodes: seq<HostNode>, i: nat)
    requires IdsComplete(nodes) && i < |nodes|
    ensures Placed(|nodes|, nodes, |nodes| - 1 - nodes[i].id) == Some(nodes[i].part)
  {
    PlacedIsTheNode(|nodes|, nodes, i);
  }

  /** Some node has each id. */
  lemma IdIsTaken(nodes: seq<HostNode>, id: nat) returns (i: nat)
    requires IdsComplete(nodes) && id < |nodes|
    ensures i < |nodes| && nodes[i].id == id
  {
    var ids := seq(|nodes|, k requires 0 <= k < |nodes| => nodes[k].id);
    assert forall k, m :: 0 <= m < k < |ids| ==> ids[m] != ids[k];
    DistinctSize(ids);
    FillsWindow((set x | x in ids), |nodes|, id);
    i :| 0 <= i < |ids| && ids[i] == id;
  }

  /** n different numbers below n are all of them. */
  lemma FillsWindow(taken: set<int>, n: nat, id: nat)
    requires |taken| == n && (forall x :: x in taken ==> 0 <= x < n) && id < n
    ensures id in taken
  {
    var all := Window(0, n);
    assert taken <= all;
    assert |all - taken| == |all| - |taken|;
    assert all - taken == {} && id in all;
    assert id !in taken ==> id in all - taken;
  }

  /** The parts the splitter produces for a complete host list. */
  ghost predicate SplitFrom(parts: seq<NodePart>, nodes: seq<HostNode>)
  {
    |parts| == |nodes| && forall j :: 0 <= j < |nodes| ==> Placed(|nodes|, nodes, j) == Some(parts[j])
  }

  lemma SplitPart(parts: seq<NodePart>, nodes: seq<HostNode>, j: nat) returns (i: nat)
    requires SplitFrom(parts, nodes) && IdsComplete(nodes) && j < |nodes|
    ensures i < |nodes| && nodes[i].id == |nodes| - 1 - j && parts[j] == nodes[i].part
  {
    i := IdIsTaken(nodes, |nodes| - 1 - j);
    SplitSendsInReverse(nodes, i);
  }

  /** End to end: a transaction whose nodes number 0 .. n - 1 with children above their parents is
      accepted by the device as the splitter sends it exactly when no edge spans more than 32 ids. */
  lemma SplitIsAcceptedIff(s: Session, nodes: seq<HostNode>)
    requires IdsComplete(nodes) && SplitFrom(s.parts, nodes)
    requires forall i :: 0 <= i < |nodes| ==> NodeNumber(nodes[i].part) == nodes[i].id
    requires forall i :: 0 <= i < |nodes| ==> (IsRootPart(s.header, nodes[i].part) <==> nodes[i].id == 0)
    requires StartsFor(s) && forall i :: 0 <= i < |s.parts| ==> ShellIsSound(s, i)
    requires ClaimsAscend(s)
    ensures s.Accepted() <==> ShortEdges(s)
  {
    hide *;
    forall j | 0 <= j < |s.parts|
      ensures s.Id(j) == |s.parts| - 1 - j && (s.IsRoot(j) <==> s.Id(j) == 0)
    {
      SplitSizes(s, nodes);
      var i := SplitPart(s.parts, nodes, j);
      PartIs(s, j, nodes[i]);
    }
    ReverseAssembles(s);
    ReverseOrderIsAcceptedIff(s);
  }

  lemma SplitSizes(s: Session, nodes: seq<HostNode>)
    requires SplitFrom(s.parts, nodes)
    ensures |s.parts| == |nodes|
  {
  }

  lemma PartIs(s: Session, j: nat, node: HostNode)
    requires j < |s.parts| && s.parts[j] == node.part && NodeNumber(node.part) == node.id
    requires IsRootPart(s.header, node.part) <==> node.id == 0
    ensures s.Id(j) == node.id && (s.IsRoot(j) <==> node.id == 0)
  {
  }

  /** The header announces the nodes sent, its root is node 0, and the device had room to track them. */
  predicate StartsFor(s: Session)
  {
    s.Parses() && s.start.tree == NodeTreeCheck.Init(s.header.roots, s.header.nodesCount, true) &&
    s.start.tree.err == NodeTreeCheck.TREE_OK && s.RootId() == 0 && |s.parts| == s.header.nodesCount
  }

  lemma ReverseAssembles(s: Session)
    requires StartsFor(s) && forall i :: 0 <= i < |s.parts| ==> ShellIsSound(s, i)
    requires forall j :: 0 <= j < |s.parts| ==> s.Id(j) == |s.parts| - 1 - j && (s.IsRoot(j) <==> s.Id(j) == 0)
    ensures SentInReverse(s)
  {
    hide Session.Kids, Session.Id, Session.IsRoot, ShellIsSound, Session.Parses;
  }
}
