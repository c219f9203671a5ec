/** The ring of recent node hashes (canonical_hash.c): 32 slots, overwritten in turn. */
module NodeHashStore {
  import opened Bytes

  const MAX_NODE_CHILDREN: nat := 32
  const EMPTY_ID: int := -1

  datatype Slot = Slot(id: int, hash: seq<Byte>)

  // ------------------------------------------------------------------ specification

  datatype Ring = Ring(slots: seq<Slot>, cursor: nat)

  predicate ValidRing(r: Ring) { |r.slots| == 32 && r.cursor < 32 }

  /** init_node_hash_store empties the slots and leaves the cursor where it was. */
  function EmptyRing(cursor: nat): (r: Ring)
    ensures cursor < 32 ==> Emptied(r)
  {
    Ring(seq(32, _ => Slot(EMPTY_ID, ZeroHash([]))), cursor)
  }

  predicate Emptied(r: Ring) { ValidRing(r) && forall i :: 0 <= i < 32 ==> r.slots[i].id == EMPTY_ID }

  function SetHash(r: Ring, id: int, hash: seq<Byte>): Ring
    requires ValidRing(r)
  {
    Ring(r.slots[r.cursor := Slot(id, hash)], Next(r.cursor))
  }

  /** get_node_hash: the first slot that carries the id. */
  function Find(slots: seq<Slot>, id: int): Option<seq<Byte>>
  {
    if |slots| == 0 then None
    else if slots[0].id == id then Some(slots[0].hash)
    else Find(slots[1..], id)
  }

  function GetHash(r: Ring, id: int): Option<seq<Byte>> { Find(r.slots, id) }

  function SetAll(r: Ring, history: seq<Slot>): (s: Ring)
    requires ValidRing(r)
    ensures ValidRing(s)
  {
    if |history| == 0 then r
    else
      var k := |history| - 1;
      SetHash(SetAll(r, history[..k]), history[k].id, history[k].hash)
  }

  // ------------------------------------------------------------------ the ring refines a map

  function Next(cursor: nat): (c: nat)
    ensures c < 32
  {
    (cursor + 1) % 32
  }

  /** The slot written by store number i. */
  function At(start: nat, i: nat): (s: nat)
    requires start < 32
    ensures s < 32
  {
    if i == 0 then start else Next(At(start, i - 1))
  }

  /** Fewer than 32 stores later the cursor has moved by as many slots. */
  lemma {:induction false} AtOffset(start: nat, i: nat, d: nat)
    requires start < 32 && d < 32
    ensures At(start, i + d) == if At(start, i) + d < 32 then At(start, i) + d else At(start, i) + d - 32
  {
    if d > 0 {
      AtOffset(start, i, d - 1);
    }
  }

  /** Within any window of 32 stores every slot is written once. */
  lemma AtOnto(start: nat, base: nat, s: nat) returns (i: nat)
    requires start < 32 && s < 32
    ensures base <= i < base + 32 && At(start, i) == s
  {
    var b := At(start, base);
    i := base + if s >= b then s - b else s + 32 - b;
    AtOffset(start, base, i - base);
  }

  /** After k stores the last 32 of them sit in their slots and every other slot is still empty. */
  ghost predicate Holds(r: Ring, start: nat, history: seq<Slot>)
  {
    ValidRing(r) && start < 32 && r.cursor == At(start, |history|) &&
    (forall i :: 0 <= i < |history| && |history| <= i + 32 ==> r.slots[At(start, i)] == history[i]) &&
    (forall i :: |history| <= i < 32 ==> r.slots[At(start, i)].id == EMPTY_ID)
  }

  lemma HoldsStep(r: Ring, start: nat, history: seq<Slot>, slot: Slot)
    requires Holds(r, start, history)
    ensures Holds(SetHash(r, slot.id, slot.hash), start, history + [slot])
  {
    hide Next;
    var k, after, longer := |history|, SetHash(r, slot.id, slot.hash), history + [slot];
    forall i | 0 <= i < |longer| && |longer| <= i + 32
      ensures after.slots[At(start, i)] == longer[i]
    {
      if i < k {
        AtOffset(start, i, k - i);
      }
    }
    forall i | |longer| <= i < 32
      ensures after.slots[At(start, i)].id == EMPTY_ID
    {
      AtOffset(start, k, i - k);
    }
  }

  lemma {:induction false} SetAllHolds(r: Ring, history: seq<Slot>)
    requires Emptied(r)
    ensures Holds(SetAll(r, history), r.cursor, history)
  {
    if |history| == 0 {
      assert At(r.cursor, 0) == r.cursor;
    } else {
      var k := |history| - 1;
      hide Holds;
      SetAllHolds(r, history[..k]);
      HoldsStep(SetAll(r, history[..k]), r.cursor, history[..k], history[k]);
      assert history == history[..k] + [history[k]];
    }
  }

  lemma {:induction false} FindAt(slots: seq<Slot>, id: int, j: nat)
    requires j < |slots| && slots[j].id == id
    requires forall i :: 0 <= i < |slots| && i != j ==> slots[i].id != id
    ensures Find(slots, id) == Some(slots[j].hash)
  {
    if j > 0 {
      FindAt(slots[1..], id, j - 1);
    }
  }

  lemma {:induction false} FindNone(slots: seq<Slot>, id: int)
    ensures Find(slots, id).None? <==> forall i :: 0 <= i < |slots| ==> slots[i].id != id
  {
    if |slots| > 0 {
      FindNone(slots[1..], id);
      assert forall i :: 0 < i < |slots| ==> slots[i] == slots[1..][i - 1];
    }
  }

  predicate DistinctIds(history: seq<Slot>)
  {
    (forall i :: 0 <= i < |history| ==> history[i].id >= 0) &&
    forall i, j :: 0 <= i < j < |history| ==> history[i].id != history[j].id
  }

  /** Every slot is either empty or one of the last 32 stores. */
  lemma SlotOwner(r: Ring, start: nat, history: seq<Slot>, s: nat) returns (i: nat)
    requires Holds(r, start, history) && s < 32
    ensures At(start, i) == s
    ensures if i < |history| then |history| <= i + 32 && r.slots[s] == history[i] else r.slots[s].id == EMPTY_ID
  {
    i := AtOnto(start, if |history| <= 32 then 0 else |history| - 32, s);
  }

  /** A lookup after any stores with distinct ids: it succeeds exactly for the last 32 ids stored, and
      yields the hash stored under the id. */
  lemma RingIsRecentMap(r: Ring, history: seq<Slot>, id: nat)
    requires Emptied(r) && DistinctIds(history)
    ensures forall i :: 0 <= i < |history| && history[i].id == id ==>
      GetHash(SetAll(r, history), id) == if |history| <= i + 32 then Some(history[i].hash) else None
    ensures GetHash(SetAll(r, history), id).Some? <==>
      exists i :: 0 <= i < |history| && |history| <= i + 32 && history[i].id == id
  {
    SetAllHolds(r, history);
    var after, start := SetAll(r, history), r.cursor;
    FindNone(after.slots, id);
    if s :| 0 <= s < 32 && after.slots[s].id == id {
      var i := SlotOwner(after, start, history, s);
      forall t | 0 <= t < 32 && t != s
        ensures after.slots[t].id != id
      {
        var j := SlotOwner(after, start, history, t);
      }
      FindAt(after.slots, id, s);
    } else {
      forall i | 0 <= i < |history| && |history| <= i + 32
        ensures history[i].id != id
      {
        assert after.slots[At(start, i)] == history[i];
      }
    }
  }

  // ------------------------------------------------------------------ the module's state

  class Store {
    const slots: array<Slot>
    var cursor: nat

    ghost predicate Valid()
      reads this
    {
      slots.Length == 32 && cursor < 32
    }

    ghost function Model(): (r: Ring)
      requires Valid()
      reads this, slots
      ensures ValidRing(r)
    {
      Ring(slots[..], cursor)
    }

    constructor ()
      ensures Valid() && fresh(slots)
    {
      slots := new Slot[32](_ => Slot(0, []));
      cursor := 0;
    }

    method InitStore()
      requires Valid()
      modifies slots
      ensures Valid() && Model() == EmptyRing(old(cursor))
    {
      for i := 0 to 32
        invariant forall j :: 0 <= j < i ==> slots[j] == Slot(EMPTY_ID, ZeroHash([]))
      {
        slots[i] := Slot(EMPTY_ID, ZeroHash([]));
      }
    }

    method SetNodeHash(id: int, hash: seq<Byte>)
      requires Valid()
      modifies this, slots
      ensures Valid() && Model() == SetHash(old(Model()), id, hash)
    {
      slots[cursor] := Slot(id, hash);
      cursor := cursor + 1;
      cursor := cursor % 32;
    }

    method GetNodeHash(id: int) returns (hash: Option<seq<Byte>>)
      requires Valid()
      ensures hash == GetHash(Model(), id)
    {
      assert slots[0..] == slots[..];
      for i := 0 to 32
        invariant Find(slots[i..], id) == Find(slots[..], id)
      {
        assert slots[i..][0] == slots[i] && slots[i..][1..] == slots[i + 1..];
        if slots[i].id == id {
          return Some(slots[i].hash);
        }
      }
      return None;
    }
  }
}
