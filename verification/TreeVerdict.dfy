/** What the node tree verdict means: a declarative reading of the first error over a whole run. */
module TreeVerdict {
  import opened Bytes
  import opened NodeTreeCheck

  /** One call of tree_mark_seen, or of tree_claim_children. */
  datatype Call = MarkCall(id: int) | ClaimCall(parent: int, children: seq<int>)

  function Apply(c: Check, call: Call): Check
  {
    match call
    case MarkCall(id) => MarkSeen(c, id)
    case ClaimCall(p, kids) => Claim(c, p, kids)
  }

  function Run(c: Check, calls: seq<Call>): Check
  {
    if |calls| == 0 then c else Apply(Run(c, calls[..|calls| - 1]), calls[|calls| - 1])
  }

  /** The claims one by one. */
  datatype Event = Mark(id: int) | ClaimEvent(parent: int, child: int)

  function Claims(parent: int, kids: seq<int>): seq<Event>
  {
    seq(|kids|, i requires 0 <= i < |kids| => ClaimEvent(parent, kids[i]))
  }

  function EventsOf(call: Call): seq<Event>
  {
    match call
    case MarkCall(id) => [Mark(id)]
    case ClaimCall(p, kids) => Claims(p, kids)
  }

  function Flatten(calls: seq<Call>): seq<Event>
  {
    if |calls| == 0 then [] else Flatten(calls[..|calls| - 1]) + EventsOf(calls[|calls| - 1])
  }

  // ------------------------------------------------------------------ the declarative reading

  ghost predicate Seen(es: seq<Event>, id: int) { exists j :: 0 <= j < |es| && es[j] == Mark(id) }

  ghost predicate ClaimedBy(es: seq<Event>, id: int)
  {
    exists j :: 0 <= j < |es| && es[j].ClaimEvent? && es[j].child == id
  }

  /** The header claims the root. */
  ghost predicate Claimed(es: seq<Event>, root: int, id: int) { id == root || ClaimedBy(es, id) }

  /** What is wrong with event i, given what came before it. */
  ghost function Offence(es: seq<Event>, i: nat, root: int, n: nat): TreeError
    requires i < |es|
  {
    match es[i]
    case Mark(id) =>
      if id < 0 || id >= n then TREE_ERR_NODE_ID_OUT_OF_RANGE
      else if Seen(es[..i], id) then TREE_ERR_DUPLICATE_NODE
      else TREE_OK
    case ClaimEvent(p, c) =>
      if c < 0 || c >= n then TREE_ERR_CHILD_OUT_OF_RANGE
      else if c == p then TREE_ERR_SELF_CHILD
      else if c == root then TREE_ERR_ROOT_CLAIMED
      else if ClaimedBy(es[..i], c) then TREE_ERR_DUPLICATE_CLAIM
      else TREE_OK
  }

  ghost predicate NoOffence(es: seq<Event>, root: int, n: nat)
  {
    forall i :: 0 <= i < |es| ==> Offence(es, i, root, n) == TREE_OK
  }

  /** Every announced node that arrived was claimed, and the other way round. */
  ghost predicate Matched(es: seq<Event>, root: int, n: nat)
  {
    forall id :: 0 <= id < n ==> (Seen(es, id) <==> Claimed(es, root, id))
  }

  ghost function Flags(es: seq<Event>, root: int, n: nat): seq<NodeCheck>
  {
    seq(n, id => NodeCheck(Seen(es, id), Claimed(es, root, id)))
  }

  // ------------------------------------------------------------------ one event at a time

  function Step(c: Check, e: Event): Check
  {
    match e
    case Mark(id) => MarkSeen(c, id)
    case ClaimEvent(p, k) =>
      var err := ClaimError(c, p, k);
      if err != TREE_OK then TreeFail(c, err) else ClaimOne(c, k)
  }

  function Steps(c: Check, es: seq<Event>): Check
  {
    if |es| == 0 then c else Step(Steps(c, es[..|es| - 1]), es[|es| - 1])
  }

  lemma {:induction false} StepsConcat(c: Check, es: seq<Event>, fs: seq<Event>)
    ensures Steps(c, es + fs) == Steps(Steps(c, es), fs)
  {
    if |fs| == 0 {
      assert es + fs == es;
    } else {
      assert (es + fs)[..|es + fs| - 1] == es + fs[..|fs| - 1];
      StepsConcat(c, es, fs[..|fs| - 1]);
    }
  }

  lemma {:induction false} ErrorStays(c: Check, es: seq<Event>)
    requires c.err != TREE_OK
    ensures Steps(c, es).err == c.err
  {
    if |es| > 0 {
      ErrorStays(c, es[..|es| - 1]);
    }
  }

  /** A batch of claims stops at the first error; taken one by one the verdict is the same. */
  lemma {:induction false} ClaimIsSteps(c: Check, p: int, kids: seq<int>)
    ensures
      var a := Claim(c, p, kids);
      var b := Steps(c, Claims(p, kids));
      a == b || (a.err == b.err != TREE_OK)
    decreases |kids|
  {
    if |kids| > 0 {
      var first := [ClaimEvent(p, kids[0])];
      assert Claims(p, kids) == first + Claims(p, kids[1..]);
      StepsConcat(c, first, Claims(p, kids[1..]));
      var c1 := Step(c, first[0]);
      assert Steps(c, first) == c1 by {
        assert first[..0] == [] && Steps(c, []) == c;
      }
      if ClaimError(c, p, kids[0]) == TREE_OK {
        ClaimIsSteps(c1, p, kids[1..]);
      } else {
        ErrorStays(c1, Claims(p, kids[1..]));
      }
    }
  }

  lemma {:induction false} RunIsSteps(c: Check, calls: seq<Call>)
    ensures
      var a := Run(c, calls);
      var b := Steps(c, Flatten(calls));
      a == b || (a.err == b.err != TREE_OK)
  {
    if |calls| > 0 {
      var before := calls[..|calls| - 1];
      var last := calls[|calls| - 1];
      RunIsSteps(c, before);
      StepsConcat(c, Flatten(before), EventsOf(last));
      var a := Run(c, before);
      var b := Steps(c, Flatten(before));
      if a == b {
        if last.ClaimCall? {
          ClaimIsSteps(a, last.parent, last.children);
        } else {
          assert EventsOf(last)[..0] == [] && Steps(b, []) == b;
        }
      } else {
        ErrorStays(b, EventsOf(last));
        if last.ClaimCall? {
          ClaimKeepsError(a, last.parent, last.children);
        }
      }
    }
  }

  lemma {:induction false} ClaimKeepsError(c: Check, p: int, kids: seq<int>)
    requires c.err != TREE_OK
    ensures Claim(c, p, kids).err == c.err
    decreases |kids|
  {
    if |kids| > 0 && ClaimError(c, p, kids[0]) == TREE_OK {
      ClaimKeepsError(ClaimOne(c, kids[0]), p, kids[1..]);
    }
  }

  // ------------------------------------------------------------------ the state without offences

  lemma SeenGrows(es: seq<Event>, e: Event, id: int)
    ensures Seen(es + [e], id) <==> Seen(es, id) || e == Mark(id)
    ensures ClaimedBy(es + [e], id) <==> ClaimedBy(es, id) || (e.ClaimEvent? && e.child == id)
  {
    var fs := es + [e];
    if Seen(es, id) {
      var j :| 0 <= j < |es| && es[j] == Mark(id);
      assert fs[j] == Mark(id);
    }
    if ClaimedBy(es, id) {
      var j :| 0 <= j < |es| && es[j].ClaimEvent? && es[j].child == id;
      assert fs[j].child == id;
    }
    assert fs[|es|] == e;
  }

  lemma OffencePrefix(es: seq<Event>, k: nat, i: nat, root: int, n: nat)
    requires i < k <= |es|
    ensures Offence(es[..k], i, root, n) == Offence(es, i, root, n)
  {
    assert es[..k][..i] == es[..i];
  }

  lemma {:induction false} CleanState(c: Check, es: seq<Event>, root: int, n: nat)
    requires c == Check(Flags([], root, n), root, TREE_OK)
    requires NoOffence(es, root, n)
    ensures Steps(c, es) == Check(Flags(es, root, n), root, TREE_OK)
  {
    if |es| == 0 {
      assert es == [];
    } else {
      var k := |es| - 1;
      var before := es[..k];
      forall i | 0 <= i < |before|
        ensures Offence(before, i, root, n) == TREE_OK
      {
        OffencePrefix(es, k, i, root, n);
      }
      CleanState(c, before, root, n);
      assert Offence(es, k, root, n) == TREE_OK;
      assert es == before + [es[k]];
      forall id | 0 <= id < n
        ensures Flags(es, root, n)[id] == Steps(c, es).nodes[id]
      {
        SeenGrows(before, es[k], id);
      }
    }
  }

  /** The state reached by an offending event carries that offence. */
  lemma OffendingStep(c: Check, es: seq<Event>, i: nat, root: int, n: nat)
    requires i < |es| && c == Check(Flags(es[..i], root, n), root, TREE_OK)
    requires Offence(es, i, root, n) != TREE_OK
    ensures Step(c, es[i]).err == Offence(es, i, root, n)
  {
  }

  lemma {:induction false} SweepVerdict(flags: seq<NodeCheck>)
    ensures Sweep(flags) == TREE_OK <==> forall i :: 0 <= i < |flags| ==> flags[i].seen == flags[i].claimed
    ensures forall i :: (0 <= i < |flags| && flags[i].seen != flags[i].claimed &&
              (forall j :: 0 <= j < i ==> flags[j].seen == flags[j].claimed)) ==> Sweep(flags) == SweepError(flags[i])
    ensures Sweep(flags) == TREE_OK || Sweep(flags) == TREE_ERR_ORPHAN_NODE || Sweep(flags) == TREE_ERR_MISSING_CHILD
    ensures (forall i :: 0 <= i < |flags| ==> flags[i].seen) ==> Sweep(flags) != TREE_ERR_MISSING_CHILD
  {
    if |flags| > 0 {
      SweepVerdict(flags[1..]);
      assert forall i :: 0 < i < |flags| ==> flags[i] == flags[1..][i - 1];
    }
  }

  // ------------------------------------------------------------------ the theorems

  /** tree_check_init succeeded: one root in range, an array for n nodes. */
  predicate Started(c: Check, roots: seq<seq<Byte>>, n: int)
  {
    c == Init(roots, n, true) && c.err == TREE_OK
  }

  lemma StartedState(c: Check, roots: seq<seq<Byte>>, n: int)
    requires Started(c, roots, n)
    ensures 0 <= c.rootId < n <= MAX_TX_NODES && c == Check(Flags([], c.rootId, n), c.rootId, TREE_OK)
  {
  }

  /** The check starts exactly under these conditions, and knows the root. */
  lemma StartsIff(roots: seq<seq<Byte>>, n: int, hasRoom: bool)
    ensures Init(roots, n, hasRoom).err == TREE_OK <==> 0 <= n <= 256 && |roots| == 1 && hasRoom && 0 <= NodeIdFromStr(roots[0]) < n
    ensures Init(roots, n, hasRoom).err == TREE_OK ==>
      Init(roots, n, hasRoom).rootId == NodeIdFromStr(roots[0]) && Started(Init(roots, n, hasRoom), roots, n)
  {
    hide NodeIdFromStr;
  }

  /** First-error semantics, when some event offends: the verdict is the earliest offence. */
  lemma VerdictIsFirstOffence(c: Check, roots: seq<seq<Byte>>, n: int, calls: seq<Call>, i: nat)
    requires Started(c, roots, n)
    requires i < |Flatten(calls)| && Offence(Flatten(calls), i, c.rootId, n) != TREE_OK
    requires forall j :: 0 <= j < i ==> Offence(Flatten(calls), j, c.rootId, n) == TREE_OK
    ensures Verify(Run(c, calls)).err == Offence(Flatten(calls), i, c.rootId, n)
  {
    StartedState(c, roots, n);
    RunIsSteps(c, calls);
    FirstOffenceWins(c, Flatten(calls), i, n);
  }

  /** First-error semantics, when no event offends: the verdict is read off the first id whose arrival and
      claim disagree. */
  lemma VerdictIsFirstMismatch(c: Check, roots: seq<seq<Byte>>, n: int, calls: seq<Call>, id: nat)
    requires Started(c, roots, n) && NoOffence(Flatten(calls), c.rootId, n)
    requires id < n && Matched(Flatten(calls), c.rootId, id)
    requires Seen(Flatten(calls), id) != Claimed(Flatten(calls), c.rootId, id)
    ensures Verify(Run(c, calls)).err == if Seen(Flatten(calls), id) then TREE_ERR_ORPHAN_NODE else TREE_ERR_MISSING_CHILD
  {
    StartedState(c, roots, n);
    var es := Flatten(calls);
    RunIsSteps(c, calls);
    CleanState(c, es, c.rootId, n);
    SweepVerdict(Flags(es, c.rootId, n));
    assert Flags(es, c.rootId, n)[id].seen != Flags(es, c.rootId, n)[id].claimed;
  }

  /** TREE_OK exactly when no event offends and the arrived nodes are the claimed ones. */
  lemma TreeOkIff(c: Check, roots: seq<seq<Byte>>, n: int, calls: seq<Call>)
    requires Started(c, roots, n)
    ensures Verify(Run(c, calls)).err == TREE_OK <==>
      NoOffence(Flatten(calls), c.rootId, n) && Matched(Flatten(calls), c.rootId, n)
  {
    StartedState(c, roots, n);
    var es := Flatten(calls);
    RunIsSteps(c, calls);
    if NoOffence(es, c.rootId, n) {
      CleanState(c, es, c.rootId, n);
      SweepVerdict(Flags(es, c.rootId, n));
      assert forall id :: 0 <= id < n ==> Flags(es, c.rootId, n)[id] == NodeCheck(Seen(es, id), Claimed(es, c.rootId, id));
    } else {
      var i := EarliestOffence(es, c.rootId, n);
      FirstOffenceWins(c, es, i, n);
    }
  }

  /** An error latched by tree_check_init is the verdict of every run. */
  lemma InitErrorIsVerdict(c: Check, calls: seq<Call>)
    requires c.err != TREE_OK
    ensures Verify(Run(c, calls)).err == c.err
  {
    RunIsSteps(c, calls);
    ErrorStays(c, Flatten(calls));
  }

  /** Which verdicts a correct host cannot cause: after a header that starts the check, those with an offending
      event. A root out of range is one as well; every other error of the header, an orphan and a missing
      child are not. */
  lemma ImpossibleIff(roots: seq<seq<Byte>>, n: int, hasRoom: bool, calls: seq<Call>)
    ensures
      IsImpossible(Verify(Run(Init(roots, n, hasRoom), calls)).err) <==>
        0 <= n <= 256 && |roots| == 1 && hasRoom &&
        (!(0 <= NodeIdFromStr(roots[0]) < n) ||
         exists i :: 0 <= i < |Flatten(calls)| && Offence(Flatten(calls), i, NodeIdFromStr(roots[0]), n) != TREE_OK)
  {
    hide Run, Flatten, Steps, Flags, Sweep, NodeIdFromStr;
    var c, es := Init(roots, n, hasRoom), Flatten(calls);
    if c.err != TREE_OK {
      InitErrorIsVerdict(c, calls);
    } else {
      StartedState(c, roots, n);
      RunIsSteps(c, calls);
      if NoOffence(es, c.rootId, n) {
        CleanState(c, es, c.rootId, n);
        SweepVerdict(Flags(es, c.rootId, n));
      } else {
        var i := EarliestOffence(es, c.rootId, n);
        FirstOffenceWins(c, es, i, n);
      }
    }
  }

  lemma {:induction false} EarliestOffence(es: seq<Event>, root: int, n: nat) returns (i: nat)
    requires !NoOffence(es, root, n)
    ensures i < |es| && Offence(es, i, root, n) != TREE_OK
    ensures forall j :: 0 <= j < i ==> Offence(es, j, root, n) == TREE_OK
  {
    i := 0;
    while Offence(es, i, root, n) == TREE_OK
      invariant i < |es|
      invariant forall j :: 0 <= j < i ==> Offence(es, j, root, n) == TREE_OK
      decreases |es| - i
    {
      i := i + 1;
    }
  }

  lemma FirstOffenceWins(c: Check, es: seq<Event>, i: nat, n: nat)
    requires c == Check(Flags([], c.rootId, n), c.rootId, TREE_OK)
    requires i < |es| && Offence(es, i, c.rootId, n) != TREE_OK
    requires forall j :: 0 <= j < i ==> Offence(es, j, c.rootId, n) == TREE_OK
    ensures Steps(c, es).err == Offence(es, i, c.rootId, n)
  {
    var root := c.rootId;
    forall j | 0 <= j < i
      ensures Offence(es[..i], j, root, n) == TREE_OK
    {
      OffencePrefix(es, i, j, root, n);
    }
    CleanState(c, es[..i], root, n);
    OffendingStep(Steps(c, es[..i]), es, i, root, n);
    assert es[..i + 1][..i] == es[..i];
    assert es == es[..i + 1] + es[i + 1..];
    StepsConcat(c, es[..i + 1], es[i + 1..]);
    ErrorStays(Steps(c, es[..i + 1]), es[i + 1..]);
  }

  // ------------------------------------------------------------------ MISSING_CHILD is a dead guard

  function Marks(calls: seq<Call>): nat
  {
    if |calls| == 0 then 0
    else Marks(calls[..|calls| - 1]) + if calls[|calls| - 1].MarkCall? then 1 else 0
  }

  ghost function SeenSet(es: seq<Event>, n: nat): set<int> { set id | id in Ids(n) && Seen(es, id) }

  /** The ids 0 .. n - 1. */
  function Ids(n: nat): (ids: set<int>)
    ensures forall id :: id in ids <==> 0 <= id < n
    ensures |ids| == n
  {
    if n == 0 then {} else Ids(n - 1) + {n - 1}
  }

  /** Without an offence each mark adds one new id in range. */
  lemma {:induction false} MarksAreDistinct(calls: seq<Call>, root: int, n: nat)
    requires NoOffence(Flatten(calls), root, n)
    ensures |SeenSet(Flatten(calls), n)| == Marks(calls)
  {
    var es := Flatten(calls);
    if |calls| == 0 {
      assert SeenSet(es, n) == {};
    } else {
      var last := calls[|calls| - 1];
      var before := Flatten(calls[..|calls| - 1]);
      assert es[..|before|] == before;
      forall i | 0 <= i < |before|
        ensures Offence(before, i, root, n) == TREE_OK
      {
        OffencePrefix(es, |before|, i, root, n);
      }
      MarksAreDistinct(calls[..|calls| - 1], root, n);
      if last.MarkCall? {
        assert Offence(es, |before|, root, n) == TREE_OK;
        forall id
          ensures Seen(es, id) <==> Seen(before, id) || id == last.id
        {
          SeenGrows(before, Mark(last.id), id);
        }
        assert SeenSet(es, n) == SeenSet(before, n) + {last.id};
      } else {
        forall id
          ensures Seen(es, id) <==> Seen(before, id)
        {
          if Seen(before, id) {
            var j :| 0 <= j < |before| && before[j] == Mark(id);
            assert es[j] == Mark(id);
          }
        }
        assert SeenSet(es, n) == SeenSet(before, n);
      }
    }
  }

  /** As many marks as announced nodes, none of them offending: every node arrived. */
  lemma AllSeen(calls: seq<Call>, root: int, n: nat)
    requires NoOffence(Flatten(calls), root, n) && Marks(calls) == n
    ensures forall id :: 0 <= id < n ==> Seen(Flatten(calls), id)
  {
    MarksAreDistinct(calls, root, n);
    var seen := SeenSet(Flatten(calls), n);
    assert seen <= Ids(n);
    assert |Ids(n) - seen| == |Ids(n)| - |seen|;
    assert Ids(n) - seen == {};
    forall id | 0 <= id < n
      ensures Seen(Flatten(calls), id)
    {
      assert id in Ids(n);
    }
  }

  /** With exactly nodes_count marks, whatever the claims, TREE_ERR_MISSING_CHILD is never returned. */
  lemma MissingChildIsDead(c: Check, roots: seq<seq<Byte>>, n: int, calls: seq<Call>)
    requires Started(c, roots, n) && Marks(calls) == n
    ensures Verify(Run(c, calls)).err != TREE_ERR_MISSING_CHILD
  {
    StartedState(c, roots, n);
    var es, root := Flatten(calls), c.rootId;
    RunIsSteps(c, calls);
    if NoOffence(es, root, n) {
      AllSeen(calls, root, n);
      CleanState(c, es, root, n);
      SweepVerdict(Flags(es, root, n));
    } else {
      var i := EarliestOffence(es, root, n);
      FirstOffenceWins(c, es, i, n);
    }
  }

  lemma RunAppend(c: Check, calls: seq<Call>, call: Call)
    ensures Run(c, calls + [call]) == Apply(Run(c, calls), call)
  {
    assert (calls + [call])[..|calls|] == calls;
  }

  /** The check alone does not prove a tree: two nodes may claim each other beside the root. */
  lemma TreeCheckAloneAllowsCycles()
    ensures
      var zero: seq<Byte> := [48];
      var calls := [MarkCall(0)] + [ClaimCall(1, [2])] + [MarkCall(1)] + [ClaimCall(2, [1])] + [MarkCall(2)];
      Started(Init([zero], 3, true), [zero], 3) && Verify(Run(Init([zero], 3, true), calls)).err == TREE_OK
  {
    var zero: seq<Byte> := [48];
    var c := Init([zero], 3, true);
    assert Decimal(zero) == 0 by {
      assert zero[..0] == [] && Decimal([]) == 0;
    }
    assert c == Check([NodeCheck(false, true), NodeCheck(false, false), NodeCheck(false, false)], 0, TREE_OK);
    RunAppend(c, [], MarkCall(0));
    assert [] + [MarkCall(0)] == [MarkCall(0)];
    RunAppend(c, [MarkCall(0)], ClaimCall(1, [2]));
    RunAppend(c, [MarkCall(0)] + [ClaimCall(1, [2])], MarkCall(1));
    RunAppend(c, [MarkCall(0)] + [ClaimCall(1, [2])] + [MarkCall(1)], ClaimCall(2, [1]));
    RunAppend(c, [MarkCall(0)] + [ClaimCall(1, [2])] + [MarkCall(1)] + [ClaimCall(2, [1])], MarkCall(2));
    var c1 := MarkSeen(c, 0);
    var c2 := ClaimOne(c1, 2);
    assert Claim(c1, 1, [2]) == Claim(c2, 1, []) == c2;
    var c3 := MarkSeen(c2, 1);
    var c4 := ClaimOne(c3, 1);
    assert Claim(c3, 2, [1]) == Claim(c4, 2, []) == c4;
    SweepVerdict(MarkSeen(c4, 2).nodes);
  }
}
