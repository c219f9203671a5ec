/** The root is matched by its spelling but tracked by its number, and the two can disagree. */
module RootSpelling {
  import opened Bytes
  import opened HashWriter
  import opened ValueStream
  import opened CanonicalNode
  import opened NodeTreeCheck
  import opened NodeHashStore
  import opened NodePhase
  import opened NodeTree
  import opened NodeMerkle

  const ZERO: Str := [48]
  const DOUBLE_ZERO: Str := [48, 48]

  const HEADER: Header := Header(Some([50]), [ZERO], 1, [])

  /** One announced node, root "0"; the node calls itself "00". */
  function Misspelled(h: Sha256, start: NodeState): Session
  {
    Session(h, HEADER, start, [NodePart(Some(DOUBLE_ZERO), Rollback([]))])
  }

  predicate StartsWell(start: NodeState) { Begins(HEADER, start) && start.tree.err == TREE_OK }

  lemma ZeroIsZero()
    ensures AToInt(ZERO) == 0 && AToInt(DOUBLE_ZERO) == 0
  {
    assert ZERO[..0] == [] && Decimal([]) == 0 && Decimal(ZERO) == 0;
    assert DOUBLE_ZERO[..1] == ZERO;
  }

  lemma MisspelledStarts(h: Sha256, start: NodeState)
    requires StartsWell(start)
    ensures Misspelled(h, start).Parses()
    ensures start.tree == Check([NodeCheck(false, true)], 0, TREE_OK)
  {
    ZeroIsZero();
    var s := Misspelled(h, start);
    assert PartParses(s.header, s.parts[0]);
  }

  /** A run the checks accept although no part is spelled like the root: nothing of its node is signed. */
  lemma MisspelledRootIsAccepted(h: Sha256, start: NodeState)
    requires StartsWell(start)
    ensures Misspelled(h, start).Accepted() && !RootSpelled(Misspelled(h, start))
    ensures Misspelled(h, start).State(1).hasher == start.hasher
  {
    var s := Misspelled(h, start);
    MisspelledStarts(h, start);
    ZeroIsZero();
    StepEffects(s, 0);
    assert !s.IsRoot(0) by {
      assert s.parts[0].id.value == DOUBLE_ZERO && s.header.roots == [ZERO] && |DOUBLE_ZERO| != |ZERO|;
    }
    StateZero(s);
    var tree := s.State(1).tree;
    assert ClaimPart(s.start.tree, s.parts[0]) == s.start.tree by {
      assert ChildIds([]) == [];
    }
    assert tree == Check([NodeCheck(true, true)], 0, TREE_OK);
    assert Sweep(tree.nodes) == Sweep(tree.nodes[1..]) == TREE_OK;
  }
}
