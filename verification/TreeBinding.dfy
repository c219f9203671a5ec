/** Merkle binding: trees with one hash have one content, unless SHA-256 collides on what was hashed. */
module TreeBinding {
  import opened Bytes
  import opened HashWriter
  import opened ValueStream
  import opened CanonicalNode
  import opened NodeBinding
  import opened NodePhase
  import opened NodeMerkle

  /** No two of these byte strings share a hash: the hypothesis under which a hash binds. */
  predicate NoCollision(h: Sha256, preimages: set<seq<Byte>>)
  {
    forall a, b :: a in preimages && b in preimages && h(a) == h(b) ==> a == b
  }

  /** Trees in the domain of the encoders, with children only where the node has a child list. */
  predicate BindableTree(t: Tree)
  {
    Hashable(t.body) && ReadableNode(t.body) && GoodSeed(t.body, t.seed) && FitsInt32(t.kids) &&
    (!HasChildren(t.body) ==> |t.kids| == 0) && Shell(t.body) == t.body &&
    forall k :: 0 <= k < |t.kids| ==> BindableTree(t.kids[k])
  }

  lemma {:induction false} BindableIsHashable(t: Tree)
    requires BindableTree(t)
    ensures HashableTree(t)
  {
    hide Hashable, ReadableNode, IsComplete, Shell;
    assert IsComplete(t.body) by { HashableIsComplete(t.body); }
    forall k | 0 <= k < |t.kids|
      ensures HashableTree(t.kids[k])
    {
      BindableIsHashable(t.kids[k]);
    }
  }

  lemma HashableIsComplete(b: NodeBody)
    requires Hashable(b)
    ensures IsComplete(b)
  {
  }

  /** Everything hashed on the way to the root hash. */
  function Preimages(h: Sha256, t: Tree): set<seq<Byte>>
    requires HashableTree(t)
    decreases t, 0
  {
    {NodeStream(t.body, t.seed, TreeHashes(h, t.kids))} + PreimagesOfAll(h, t.kids)
  }

  function PreimagesOfAll(h: Sha256, ts: seq<Tree>): set<seq<Byte>>
    requires forall k :: 0 <= k < |ts| ==> HashableTree(ts[k])
  {
    if |ts| == 0 then {} else Preimages(h, ts[0]) + PreimagesOfAll(h, ts[1..])
  }

  lemma {:induction false} KidPreimages(h: Sha256, ts: seq<Tree>, k: nat)
    requires (forall j :: 0 <= j < |ts| ==> HashableTree(ts[j])) && k < |ts|
    ensures Preimages(h, ts[k]) <= PreimagesOfAll(h, ts)
  {
    hide Preimages, HashableTree;
    if k > 0 {
      KidPreimages(h, ts[1..], k - 1);
    }
  }

  /** The same hashed content: node ids are not hashed, and neither is a seed a node does not use. */
  predicate SameContent(t: Tree, u: Tree)
  {
    t.body == u.body && HashedSeed(t.body, t.seed) == HashedSeed(u.body, u.seed) && |t.kids| == |u.kids| &&
    forall k :: 0 <= k < |t.kids| ==> SameContent(t.kids[k], u.kids[k])
  }

  /** On the domain the hashed bytes are the canonical encoding. */
  lemma NodeStreamIsCanonical(b: NodeBody, seed: Option<seq<Byte>>, hs: seq<seq<Byte>>)
    requires IsComplete(b) && ReadableNode(b) && (b.Exercise? ==> seed.Some?)
    ensures NodeStream(b, seed, hs) == FullBytes(b, seed, hs)
  {
    hide StreamShell, ShellBytes, IsComplete, ReadableNode, ChildBytes;
    ShellIsCanonical(b, seed, HASH_OK);
  }

  lemma TreeHashesAreGood(h: Sha256, ts: seq<Tree>)
    requires FitsInt32(ts) && forall k :: 0 <= k < |ts| ==> HashableTree(ts[k])
    ensures GoodHashes(TreeHashes(h, ts))
  {
    hide HashableTree, NodeStream;
  }

  lemma SubsetKeepsNoCollision(h: Sha256, ps: set<seq<Byte>>, qs: set<seq<Byte>>)
    requires NoCollision(h, ps) && qs <= ps
    ensures NoCollision(h, qs)
  {
  }

  /** Equal root hashes, equal trees. */
  lemma {:induction false} TreeBinds(h: Sha256, t: Tree, u: Tree)
    requires BindableTree(t) && BindableTree(u) && HashableTree(t) && HashableTree(u)
    requires NoCollision(h, Preimages(h, t) + Preimages(h, u))
    requires TreeHash(h, t) == TreeHash(h, u)
    ensures SameContent(t, u)
  {
    hide Hashable, ReadableNode, IsComplete, Shell, NodeStream, HashedSeed, NoCollision, GoodSeed, HasChildren;
    var hs, gs := TreeHashes(h, t.kids), TreeHashes(h, u.kids);
    RootsBind(h, t, u);
    forall k | 0 <= k < |t.kids|
      ensures SameContent(t.kids[k], u.kids[k])
    {
      assert hs[k] == gs[k];
      KidPreimages(h, t.kids, k);
      KidPreimages(h, u.kids, k);
      SubsetKeepsNoCollision(h, Preimages(h, t) + Preimages(h, u), Preimages(h, t.kids[k]) + Preimages(h, u.kids[k]));
      TreeBinds(h, t.kids[k], u.kids[k]);
    }
  }

  /** One level: the same root content and the same child hashes. */
  lemma RootsBind(h: Sha256, t: Tree, u: Tree)
    requires BindableTree(t) && BindableTree(u) && HashableTree(t) && HashableTree(u)
    requires NoCollision(h, Preimages(h, t) + Preimages(h, u))
    requires TreeHash(h, t) == TreeHash(h, u)
    ensures t.body == u.body && HashedSeed(t.body, t.seed) == HashedSeed(u.body, u.seed)
    ensures TreeHashes(h, t.kids) == TreeHashes(h, u.kids) && |t.kids| == |u.kids|
  {
    hide *;
    BindableParts(t);
    BindableParts(u);
    var hs, gs := TreeHashes(h, t.kids), TreeHashes(h, u.kids);
    RootPreimages(h, t, u);
    TreeHashesAreGood(h, t.kids);
    TreeHashesAreGood(h, u.kids);
    ContentBinds(t.body, t.seed, hs, u.body, u.seed, gs);
  }

  lemma ContentBinds(b: NodeBody, s: Option<seq<Byte>>, hs: seq<seq<Byte>>, c: NodeBody, r: Option<seq<Byte>>, gs: seq<seq<Byte>>)
    requires Hashable(b) && ReadableNode(b) && GoodSeed(b, s) && GoodHashes(hs) && IsComplete(b)
    requires Hashable(c) && ReadableNode(c) && GoodSeed(c, r) && GoodHashes(gs) && IsComplete(c)
    requires NodeStream(b, s, hs) == NodeStream(c, r, gs)
    ensures Shell(b) == Shell(c) && HashedSeed(b, s) == HashedSeed(c, r) && (HasChildren(b) ==> hs == gs)
    ensures HasChildren(b) == HasChildren(c)
  {
    hide Hashable, ReadableNode, IsComplete, NodeStream, HashedSeed, FullBytes, GoodHashes;
    NodeStreamIsCanonical(b, s, hs);
    NodeStreamIsCanonical(c, r, gs);
    NodeBytesBind(b, s, hs, c, r, gs);
  }

  lemma BindableParts(t: Tree)
    requires BindableTree(t) && HashableTree(t)
    ensures Hashable(t.body) && ReadableNode(t.body) && GoodSeed(t.body, t.seed) && IsComplete(t.body) && Shell(t.body) == t.body
    ensures FitsInt32(t.kids) && (forall k :: 0 <= k < |t.kids| ==> HashableTree(t.kids[k]))
    ensures !HasChildren(t.body) ==> t.kids == []
    ensures t.body.Exercise? ==> t.seed.Some?
  {
    hide Hashable, ReadableNode, IsComplete, Shell;
  }

  lemma RootPreimages(h: Sha256, t: Tree, u: Tree)
    requires HashableTree(t) && HashableTree(u)
    requires NoCollision(h, Preimages(h, t) + Preimages(h, u))
    requires TreeHash(h, t) == TreeHash(h, u)
    ensures NodeStream(t.body, t.seed, TreeHashes(h, t.kids)) == NodeStream(u.body, u.seed, TreeHashes(h, u.kids))
  {
    hide NodeStream, PreimagesOfAll, TreeHashes;
    assert NodeStream(t.body, t.seed, TreeHashes(h, t.kids)) in Preimages(h, t);
    assert NodeStream(u.body, u.seed, TreeHashes(h, u.kids)) in Preimages(h, u);
  }
}
