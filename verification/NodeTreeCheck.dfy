/** The node tree check (node_tree_check.c): which nodes arrived, which were claimed as children, and
    the first error met. */
module NodeTreeCheck {
  import opened Bytes

  const MAX_TX_NODES: nat := 256

  datatype TreeError =
    | TREE_OK
    | TREE_ERR_NODE_ID_OUT_OF_RANGE
    | TREE_ERR_DUPLICATE_NODE
    | TREE_ERR_CHILD_OUT_OF_RANGE
    | TREE_ERR_SELF_CHILD
    | TREE_ERR_ROOT_CLAIMED
    | TREE_ERR_DUPLICATE_CLAIM
    | TREE_ERR_ROOT_COUNT
    | TREE_ERR_ORPHAN_NODE
    | TREE_ERR_MISSING_CHILD
    | TREE_ERR_TOO_MANY_NODES
    | TREE_ERR_NO_MEMORY

  /** tree_error_is_impossible: such a tree cannot come from a correct host. */
  predicate IsImpossible(e: TreeError)
  {
    e == TREE_ERR_NODE_ID_OUT_OF_RANGE || e == TREE_ERR_DUPLICATE_NODE || e == TREE_ERR_CHILD_OUT_OF_RANGE ||
    e == TREE_ERR_SELF_CHILD || e == TREE_ERR_ROOT_CLAIMED || e == TREE_ERR_DUPLICATE_CLAIM
  }

  // ------------------------------------------------------------------ node ids

  predicate IsDigit(c: Byte) { 48 <= c <= 57 }

  predicate AllDigits(s: seq<Byte>) { forall i :: 0 <= i < |s| ==> IsDigit(s[i]) }

  function Decimal(s: seq<Byte>): nat
    requires AllDigits(s)
  {
    if |s| == 0 then 0
    else
      var last: int := s[|s| - 1];
      Decimal(s[..|s| - 1]) * 10 + (last - 48)
  }

  /** atoint: zero for a string that is not all digits. */
  function AToInt(s: seq<Byte>): nat { if AllDigits(s) then Decimal(s) else 0 }

  /** node_id_from_str: -1 when the string cannot be an id. */
  function NodeIdFromStr(s: seq<Byte>): int
  {
    if |s| == 0 || |s| > 3 || !AllDigits(s) then -1 else AToInt(s)
  }

  /** What the two readings of an id yield: the decimal number that one to three digits spell; for anything
      else, -1 in the tree check, and 0 in the parser unless it is a longer string of digits. */
  lemma IdsAreDecimal(s: seq<Byte>)
    ensures
      var digits := forall i :: 0 <= i < |s| ==> 48 <= s[i] <= 57;
      (digits && |s| == 1 ==> NodeIdFromStr(s) == AToInt(s) == s[0] as int - 48) &&
      (digits && |s| == 2 ==> NodeIdFromStr(s) == AToInt(s) == s[0] as int * 10 + s[1] as int - 528) &&
      (digits && |s| == 3 ==> NodeIdFromStr(s) == AToInt(s) == s[0] as int * 100 + s[1] as int * 10 + s[2] as int - 5328) &&
      (!(digits && 1 <= |s| <= 3) ==> NodeIdFromStr(s) == -1) &&
      (!digits || |s| == 0 ==> AToInt(s) == 0)
  {
    if AllDigits(s) && 1 <= |s| <= 3 {
      var t := s[..|s| - 1];
      assert Decimal(s) == Decimal(t) * 10 + (s[|s| - 1] - 48);
      if |t| > 0 {
        var u := t[..|t| - 1];
        assert Decimal(t) == Decimal(u) * 10 + (t[|t| - 1] - 48);
        if |u| > 0 {
          assert Decimal(u) == Decimal(u[..0]) * 10 + (u[0] - 48);
        }
      }
    }
  }

  // ------------------------------------------------------------------ specification

  datatype NodeCheck = NodeCheck(seen: bool, claimed: bool)

  datatype Check = Check(nodes: seq<NodeCheck>, rootId: int, err: TreeError)

  function TreeFail(c: Check, e: TreeError): Check { if c.err == TREE_OK then c.(err := e) else c }

  const EMPTY_CHECK: Check := Check([], -1, TREE_OK)

  function Fresh(n: nat): seq<NodeCheck> { seq(n, i => NodeCheck(false, false)) }

  /** tree_check_init; hasRoom says whether the tracking array could be allocated. */
  function Init(roots: seq<seq<Byte>>, nodesCount: int, hasRoom: bool): Check
  {
    if nodesCount < 0 || nodesCount > MAX_TX_NODES then TreeFail(EMPTY_CHECK, TREE_ERR_TOO_MANY_NODES)
    else if |roots| != 1 then TreeFail(EMPTY_CHECK, TREE_ERR_ROOT_COUNT)
    else if !hasRoom then TreeFail(EMPTY_CHECK, TREE_ERR_NO_MEMORY)
    else
      var c := EMPTY_CHECK.(nodes := Fresh(nodesCount));
      var root := NodeIdFromStr(roots[0]);
      if root < 0 || root >= nodesCount then TreeFail(c, TREE_ERR_NODE_ID_OUT_OF_RANGE)
      else c.(rootId := root, nodes := c.nodes[root := NodeCheck(false, true)])
  }

  function MarkSeen(c: Check, id: int): Check
  {
    if id < 0 || id >= |c.nodes| then TreeFail(c, TREE_ERR_NODE_ID_OUT_OF_RANGE)
    else if c.nodes[id].seen then TreeFail(c, TREE_ERR_DUPLICATE_NODE)
    else c.(nodes := c.nodes[id := c.nodes[id].(seen := true)])
  }

  /** What is wrong with one claim, or TREE_OK. */
  function ClaimError(c: Check, parent: int, child: int): TreeError
  {
    if child < 0 || child >= |c.nodes| then TREE_ERR_CHILD_OUT_OF_RANGE
    else if child == parent then TREE_ERR_SELF_CHILD
    else if child == c.rootId then TREE_ERR_ROOT_CLAIMED
    else if c.nodes[child].claimed then TREE_ERR_DUPLICATE_CLAIM
    else TREE_OK
  }

  function ClaimOne(c: Check, child: int): Check
    requires 0 <= child < |c.nodes|
  {
    c.(nodes := c.nodes[child := c.nodes[child].(claimed := true)])
  }

  /** tree_claim_children stops at the first claim that fails. */
  function Claim(c: Check, parent: int, children: seq<int>): Check
    decreases |children|
  {
    if |children| == 0 then c
    else
      var e := ClaimError(c, parent, children[0]);
      if e != TREE_OK then TreeFail(c, e) else Claim(ClaimOne(c, children[0]), parent, children[1..])
  }

  function SweepError(n: NodeCheck): TreeError
  {
    if n.seen && !n.claimed then TREE_ERR_ORPHAN_NODE
    else if !n.seen && n.claimed then TREE_ERR_MISSING_CHILD
    else TREE_OK
  }

  /** The first node whose flags disagree. */
  function Sweep(nodes: seq<NodeCheck>): TreeError
  {
    if |nodes| == 0 then TREE_OK
    else if SweepError(nodes[0]) != TREE_OK then SweepError(nodes[0])
    else Sweep(nodes[1..])
  }

  /** tree_verify_complete: the sweep, then the array is released. */
  function Verify(c: Check): Check
  {
    TreeFail(c, Sweep(c.nodes)).(nodes := [])
  }

  // ------------------------------------------------------------------ the module's state

  class TreeCheck {
    var nodes: array?<NodeCheck>
    var rootId: int
    var nodesCount: int
    var err: TreeError

    ghost predicate Valid()
      reads this
    {
      nodesCount >= 0 && (nodesCount > 0 ==> nodes != null && nodes.Length == nodesCount)
    }

    ghost function Repr(): set<object>
      reads this
    {
      {this} + if nodes == null then {} else {nodes}
    }

    ghost function Model(): Check
      requires Valid()
      reads this, nodes
    {
      Check(if nodesCount == 0 then [] else nodes[..], rootId, err)
    }

    constructor ()
      ensures Valid() && fresh(Repr()) && Model() == EMPTY_CHECK
    {
      nodes := null;
      rootId := -1;
      nodesCount := 0;
      err := TREE_OK;
    }

    method SetTreeError(e: TreeError)
      requires Valid()
      modifies `err
      ensures Valid() && Model() == TreeFail(old(Model()), e)
    {
      if err == TREE_OK {
        err := e;
      }
    }

    method Reset()
      modifies this
      ensures Valid() && fresh(Repr() - {this}) && Model() == EMPTY_CHECK
    {
      nodes := null;
      rootId := -1;
      nodesCount := 0;
      err := TREE_OK;
    }

    method InitCheck(roots: seq<seq<Byte>>, count: int, hasRoom: bool) returns (ok: bool)
      modifies this
      ensures Valid() && fresh(Repr() - {this})
      ensures Model() == Init(roots, count, hasRoom)
      ensures ok <==> Model().err == TREE_OK
    {
      Reset();
      if count < 0 || count > MAX_TX_NODES {
        SetTreeError(TREE_ERR_TOO_MANY_NODES);
        return false;
      }
      if |roots| != 1 {
        SetTreeError(TREE_ERR_ROOT_COUNT);
        return false;
      }
      if !hasRoom {
        SetTreeError(TREE_ERR_NO_MEMORY);
        return false;
      }
      nodes := new NodeCheck[count](_ => NodeCheck(false, false));
      nodesCount := count;
      assert nodes[..] == Fresh(count);
      var root := NodeIdFromStr(roots[0]);
      if root < 0 || root >= count {
        SetTreeError(TREE_ERR_NODE_ID_OUT_OF_RANGE);
        return false;
      }
      rootId := root;
      nodes[root] := nodes[root].(claimed := true);
      assert nodes[..] == Fresh(count)[root := NodeCheck(false, true)];
      return true;
    }

    method MarkNodeSeen(id: int)
      requires Valid()
      modifies Repr()
      ensures Valid() && Repr() == old(Repr()) && Model() == MarkSeen(old(Model()), id)
    {
      if id < 0 || id >= nodesCount {
        SetTreeError(TREE_ERR_NODE_ID_OUT_OF_RANGE);
        return;
      }
      if nodes[id].seen {
        SetTreeError(TREE_ERR_DUPLICATE_NODE);
        return;
      }
      nodes[id] := nodes[id].(seen := true);
    }

    method ClaimChildren(parent: int, children: seq<seq<Byte>>)
      requires Valid()
      modifies Repr()
      ensures Valid() && Repr() == old(Repr())
      ensures Model() == Claim(old(Model()), parent, ChildIds(children))
    {
      ghost var target := Claim(Model(), parent, ChildIds(children));
      assert ChildIds(children)[0..] == ChildIds(children);
      for i := 0 to |children|
        invariant Valid() && Repr() == old(Repr())
        invariant Claim(Model(), parent, ChildIds(children)[i..]) == target
      {
        ghost var rest := ChildIds(children)[i..];
        assert rest[0] == NodeIdFromStr(children[i]) && rest[1..] == ChildIds(children)[i + 1..];
        var child := NodeIdFromStr(children[i]);
        if child < 0 || child >= nodesCount {
          SetTreeError(TREE_ERR_CHILD_OUT_OF_RANGE);
          return;
        }
        if child == parent {
          SetTreeError(TREE_ERR_SELF_CHILD);
          return;
        }
        if child == rootId {
          SetTreeError(TREE_ERR_ROOT_CLAIMED);
          return;
        }
        if nodes[child].claimed {
          SetTreeError(TREE_ERR_DUPLICATE_CLAIM);
          return;
        }
        ghost var before := Model();
        nodes[child] := nodes[child].(claimed := true);
        assert Model() == ClaimOne(before, child);
      }
    }

    method VerifyComplete() returns (e: TreeError)
      requires Valid()
      modifies this
      ensures Valid() && Repr() == {this}
      ensures Model() == Verify(old(Model())) && e == Model().err
    {
      ghost var flags := Model().nodes;
      assert flags[0..] == flags;
      var i := 0;
      while i < nodesCount
        invariant 0 <= i <= nodesCount && Valid() && nodes == old(nodes) && nodesCount == old(nodesCount)
        invariant Model() == old(Model()) && flags == Model().nodes
        invariant Sweep(flags[i..]) == Sweep(flags)
      {
        assert flags[i..][0] == nodes[i] && flags[i..][1..] == flags[i + 1..];
        if nodes[i].seen && !nodes[i].claimed {
          SetTreeError(TREE_ERR_ORPHAN_NODE);
          break;
        }
        if !nodes[i].seen && nodes[i].claimed {
          SetTreeError(TREE_ERR_MISSING_CHILD);
          break;
        }
        i := i + 1;
      }
      nodes := null;
      nodesCount := 0;
      return err;
    }
  }

  function ChildIds(children: seq<seq<Byte>>): (ids: seq<int>)
    ensures |ids| == |children|
    ensures forall i :: 0 <= i < |ids| ==> ids[i] == NodeIdFromStr(children[i])
  {
    seq(|children|, i requires 0 <= i < |children| => NodeIdFromStr(children[i]))
  }
}
