/** The multi-hash of the onboarding messages (untyped_versioned_msg.c): hashes sorted by their hex
    spelling, then written with length prefixes. */
module MultiHash {
  import opened Bytes
  import opened ByteWriter

  const HASH_LEN: nat := 34
  const PURPOSE_TOPOLOGY_TRANSACTION_SIGNATURE: Byte := 11
  const PURPOSE_MULTI_TOPOLOGY_TRANSACTION_SIGNATURE: Byte := 55

  type Hash = b: seq<Byte> | |b| == 34 witness seq(34, _ => 0)

  /** canton_hash: two algorithm bytes, then SHA-256 of the purpose and the data. */
  function CantonHash(h: Sha256, purpose: Byte, data: seq<Byte>): Hash { [0x12, 0x20] + h([0, 0, 0, purpose] + data) }

  // ------------------------------------------------------------------ the order

  /** strcmp's sign. */
  function Compare(a: seq<Byte>, b: seq<Byte>): int
    decreases |a|
  {
    if |a| == 0 && |b| == 0 then 0
    else if |a| == 0 then -1
    else if |b| == 0 then 1
    else if a[0] < b[0] then -1
    else if a[0] > b[0] then 1
    else Compare(a[1..], b[1..])
  }

  /** compare_hashes_hex. */
  function CompareHashesHex(a: seq<Byte>, b: seq<Byte>): int { Compare(ToHex(a), ToHex(b)) }

  lemma DigitsAreOrdered(m: int, n: int)
    requires 0 <= m < 16 && 0 <= n < 16
    ensures HexDigit(m) < HexDigit(n) <==> m < n
    ensures HexDigit(m) == HexDigit(n) <==> m == n
  {
  }

  lemma ComparePair(x: Byte, y: Byte, s: seq<Byte>, u: Byte, v: Byte, t: seq<Byte>)
    ensures Compare([x, y] + s, [u, v] + t) == if x < u then -1 else if x > u then 1 else if y < v then -1 else if y > v then 1 else Compare(s, t)
  {
    var a, b := [x, y] + s, [u, v] + t;
    assert a[1..] == [y] + s && b[1..] == [v] + t;
    assert a[1..][1..] == s && b[1..][1..] == t;
  }

  /** Comparing hex spellings is comparing bytes. */
  lemma {:induction false} HexOrderIsByteOrder(a: seq<Byte>, b: seq<Byte>)
    ensures CompareHashesHex(a, b) == Compare(a, b)
    decreases |a|
  {
    if |a| > 0 && |b| > 0 {
      var m, n, p, q := a[0] / 16, a[0] % 16, b[0] / 16, b[0] % 16;
      DigitsAreOrdered(m, p);
      DigitsAreOrdered(p, m);
      DigitsAreOrdered(n, q);
      DigitsAreOrdered(q, n);
      ComparePair(HexDigit(m), HexDigit(n), ToHex(a[1..]), HexDigit(p), HexDigit(q), ToHex(b[1..]));
      HexOrderIsByteOrder(a[1..], b[1..]);
      assert a[0] == m * 16 + n && b[0] == p * 16 + q;
    }
  }

  lemma {:induction false} CompareIsAntisymmetric(a: seq<Byte>, b: seq<Byte>)
    ensures Compare(a, b) == -Compare(b, a) && -1 <= Compare(a, b) <= 1
    ensures Compare(a, b) == 0 <==> a == b
    decreases |a|
  {
    if |a| > 0 && |b| > 0 {
      CompareIsAntisymmetric(a[1..], b[1..]);
      assert a == [a[0]] + a[1..] && b == [b[0]] + b[1..];
    }
  }

  lemma {:induction false} CompareIsTransitive(a: seq<Byte>, b: seq<Byte>, c: seq<Byte>)
    requires Compare(a, b) <= 0 && Compare(b, c) <= 0
    ensures Compare(a, c) <= 0
    decreases |a|
  {
    if |a| > 0 && |b| > 0 && |c| > 0 && a[0] == b[0] == c[0] {
      CompareIsTransitive(a[1..], b[1..], c[1..]);
    }
  }

  /** At the first byte in which they differ, a's is smaller. */
  ghost predicate Precedes(a: seq<Byte>, b: seq<Byte>)
  {
    exists k :: 0 <= k < |a| && k < |b| && a[k] < b[k] && forall j :: 0 <= j < k ==> a[j] == b[j]
  }

  /** For hashes of one length, the comparison is the lexicographic order of their bytes. */
  lemma {:induction false} CompareIsLexicographic(a: seq<Byte>, b: seq<Byte>)
    requires |a| == |b|
    ensures Compare(a, b) < 0 <==> Precedes(a, b)
    decreases |a|
  {
    if |a| > 0 {
      var c, d := a[1..], b[1..];
      CompareIsLexicographic(c, d);
      assert forall i :: 0 < i < |a| ==> a[i] == c[i - 1] && b[i] == d[i - 1];
      if a[0] == b[0] && Precedes(c, d) {
        var k :| 0 <= k < |c| && k < |d| && c[k] < d[k] && forall j :: 0 <= j < k ==> c[j] == d[j];
        assert a[k + 1] < b[k + 1];
      }
      if a[0] == b[0] && Precedes(a, b) {
        var k :| 0 <= k < |a| && k < |b| && a[k] < b[k] && forall j :: 0 <= j < k ==> a[j] == b[j];
        assert c[k - 1] < d[k - 1];
        forall j | 0 <= j < k - 1
          ensures c[j] == d[j]
        {
          assert a[j + 1] == b[j + 1];
        }
      }
    }
  }

  // ------------------------------------------------------------------ sorting

  predicate Sorted(hs: seq<Hash>) { forall i, j :: 0 <= i < j < |hs| ==> Compare(hs[i], hs[j]) <= 0 }

  function Insert(hs: seq<Hash>, x: Hash): seq<Hash>
  {
    if |hs| == 0 then [x]
    else if Compare(hs[|hs| - 1], x) <= 0 then hs + [x]
    else Insert(hs[..|hs| - 1], x) + [hs[|hs| - 1]]
  }

  /** The hashes in order. */
  function InOrder(hs: seq<Hash>): seq<Hash>
  {
    if |hs| == 0 then [] else Insert(InOrder(hs[..|hs| - 1]), hs[|hs| - 1])
  }

  lemma {:induction false} InsertKeeps(hs: seq<Hash>, x: Hash)
    ensures multiset(Insert(hs, x)) == multiset(hs) + multiset{x}
    decreases |hs|
  {
    hide Compare;
    if |hs| > 0 {
      var k := |hs| - 1;
      assert hs == hs[..k] + [hs[k]];
      InsertKeeps(hs[..k], x);
    }
  }

  /** Nothing in hs is above y. */
  predicate Below(hs: seq<Hash>, y: Hash) { forall i :: 0 <= i < |hs| ==> Compare(hs[i], y) <= 0 }

  lemma {:induction false} InsertBelow(hs: seq<Hash>, x: Hash, y: Hash)
    requires Below(hs, y) && Compare(x, y) <= 0
    ensures Below(Insert(hs, x), y)
    decreases |hs|
  {
    hide Compare;
    if |hs| > 0 {
      InsertBelow(hs[..|hs| - 1], x, y);
    }
  }

  lemma SortedAppend(hs: seq<Hash>, y: Hash)
    ensures Sorted(hs + [y]) <==> Sorted(hs) && Below(hs, y)
  {
    hide Compare;
    var t := hs + [y];
    assert t[|hs|] == y && forall i :: 0 <= i < |hs| ==> t[i] == hs[i];
    if Sorted(t) {
      forall i, j | 0 <= i < j < |hs|
        ensures Compare(hs[i], hs[j]) <= 0
      {
        assert Compare(t[i], t[j]) <= 0;
      }
      forall i | 0 <= i < |hs|
        ensures Compare(hs[i], y) <= 0
      {
        assert Compare(t[i], t[|hs|]) <= 0;
      }
    }
  }

  lemma BelowIsTransitive(hs: seq<Hash>, y: Hash, z: Hash)
    requires Below(hs, y) && Compare(y, z) <= 0
    ensures Below(hs, z)
  {
    hide Compare;
    forall i | 0 <= i < |hs|
      ensures Compare(hs[i], z) <= 0
    {
      CompareIsTransitive(hs[i], y, z);
    }
  }

  lemma {:induction false} InsertSorts(hs: seq<Hash>, x: Hash)
    requires Sorted(hs)
    ensures Sorted(Insert(hs, x))
    decreases |hs|
  {
    hide Sorted, Below, Compare;
    if |hs| == 0 {
      SortedAppend([], x);
      assert [] + [x] == [x];
      NothingIsSorted(x);
    } else {
      var k := |hs| - 1;
      var last := hs[k];
      assert hs == hs[..k] + [last];
      SortedAppend(hs[..k], last);
      CompareIsAntisymmetric(last, x);
      if Compare(last, x) <= 0 {
        BelowIsTransitive(hs[..k], last, x);
        BelowAppend(hs[..k], last, x);
        SortedAppend(hs, x);
      } else {
        InsertSorts(hs[..k], x);
        InsertBelow(hs[..k], x, last);
        SortedAppend(Insert(hs[..k], x), last);
      }
    }
  }

  lemma NothingIsSorted(x: Hash)
    ensures Sorted([]) && Below([], x)
  {
  }

  lemma BelowAppend(hs: seq<Hash>, y: Hash, z: Hash)
    requires Below(hs, z) && Compare(y, z) <= 0
    ensures Below(hs + [y], z)
  {
    hide Compare;
  }

  lemma {:induction false} InOrderSorts(hs: seq<Hash>)
    ensures Sorted(InOrder(hs)) && multiset(InOrder(hs)) == multiset(hs)
  {
    if |hs| > 0 {
      var k := |hs| - 1;
      InOrderSorts(hs[..k]);
      InsertSorts(InOrder(hs[..k]), hs[k]);
      InsertKeeps(InOrder(hs[..k]), hs[k]);
      assert hs == hs[..k] + [hs[k]];
    }
  }

  lemma SortedLastIsLargest(xs: seq<Hash>, x: Hash)
    requires Sorted(xs) && |xs| > 0 && x in multiset(xs)
    ensures Compare(x, xs[|xs| - 1]) <= 0
  {
    hide Compare;
    var i :| 0 <= i < |xs| && xs[i] == x;
    CompareIsAntisymmetric(x, x);
  }

  lemma WithoutLast(xs: seq<Hash>)
    requires |xs| > 0
    ensures multiset(xs[..|xs| - 1]) == multiset(xs) - multiset{xs[|xs| - 1]} && xs == xs[..|xs| - 1] + [xs[|xs| - 1]]
    ensures xs[|xs| - 1] in multiset(xs)
  {
    assert xs == xs[..|xs| - 1] + [xs[|xs| - 1]];
  }

  lemma SameSize(xs: seq<Hash>, ys: seq<Hash>)
    requires multiset(xs) == multiset(ys)
    ensures |xs| == |ys|
  {
    assert |multiset(xs)| == |xs| && |multiset(ys)| == |ys|;
  }

  /** There is one sorted arrangement. */
  lemma {:induction false} SortedIsUnique(xs: seq<Hash>, ys: seq<Hash>)
    requires Sorted(xs) && Sorted(ys) && multiset(xs) == multiset(ys)
    ensures xs == ys
  {
    hide *;
    SameSize(xs, ys);
    if |xs| > 0 {
      var k := |xs| - 1;
      SortedAppend(xs[..k], xs[k]);
      SortedAppend(ys[..k], ys[k]);
      WithoutLast(xs);
      WithoutLast(ys);
      SortedLastIsLargest(ys, xs[k]);
      SortedLastIsLargest(xs, ys[k]);
      CompareIsAntisymmetric(xs[k], ys[k]);
      SortedIsUnique(xs[..k], ys[..k]);
    }
  }

  // ------------------------------------------------------------------ the preimage

  /** What is written: the count, and each hash behind its length. */
  function Pieces(hs: seq<Hash>): seq<seq<Byte>>
  {
    if |hs| == 0 then [] else Pieces(hs[..|hs| - 1]) + [U32(HASH_LEN), hs[|hs| - 1]]
  }

  function AllPieces(n: nat, hs: seq<Hash>): seq<seq<Byte>> { [U32(n)] + Pieces(hs) }

  function Preimage(hs: seq<Hash>): seq<Byte> { Concat(AllPieces(|hs|, InOrder(hs))) }

  function BufferSize(n: nat): nat { n * HASH_LEN + n * 4 + 4 }

  function MultiHashOf(h: Sha256, hs: seq<Hash>): Hash
  {
    CantonHash(h, PURPOSE_MULTI_TOPOLOGY_TRANSACTION_SIGNATURE, Preimage(hs))
  }

  /** The order of the messages does not matter. */
  lemma MultiHashIsOrderFree(h: Sha256, xs: seq<Hash>, ys: seq<Hash>)
    requires multiset(xs) == multiset(ys)
    ensures MultiHashOf(h, xs) == MultiHashOf(h, ys)
  {
    InOrderSorts(xs);
    InOrderSorts(ys);
    SortedIsUnique(InOrder(xs), InOrder(ys));
    assert |xs| == |multiset(xs)| == |multiset(ys)| == |ys|;
  }

  lemma {:induction false} PiecesSize(n: nat, hs: seq<Hash>)
    ensures |Concat(AllPieces(n, hs))| == 4 + 38 * |hs|
  {
    hide U32;
    if |hs| == 0 {
      OnlyCount(n);
    } else {
      var k := |hs| - 1;
      PiecesSize(n, hs[..k]);
      LastRecord(n, hs);
    }
  }

  /** Record i of what is written: the length of a hash, then the hash. */
  lemma {:induction false} RecordAt(n: nat, hs: seq<Hash>, i: nat)
    requires i < |hs| && n < 256
    ensures
      var p := Concat(AllPieces(n, hs));
      |p| == 4 + 38 * |hs| && p[..4] == [0, 0, 0, n] && p[4 + 38 * i..8 + 38 * i] == [0, 0, 0, 34] && p[8 + 38 * i..42 + 38 * i] == hs[i]
    decreases |hs|
  {
    hide U32, Concat, AllPieces;
    var k := |hs| - 1;
    var before, last := Concat(AllPieces(n, hs[..k])), hs[k];
    LastRecord(n, hs);
    PiecesSize(n, hs[..k]);
    SmallWord(n);
    SmallWord(HASH_LEN);
    var p := Concat(AllPieces(n, hs));
    assert p == before + U32(HASH_LEN) + last;
    if i < k {
      RecordAt(n, hs[..k], i);
      assert p[..4] == before[..4];
      assert p[4 + 38 * i..8 + 38 * i] == before[4 + 38 * i..8 + 38 * i];
      assert p[8 + 38 * i..42 + 38 * i] == before[8 + 38 * i..42 + 38 * i];
    } else {
      CountFirst(n, hs[..k]);
      assert p[..4] == before[..4];
    }
  }

  lemma SmallWord(n: nat)
    requires n < 256
    ensures U32(n) == [0, 0, 0, n]
  {
    WordBytes(n);
  }

  lemma LastRecord(n: nat, hs: seq<Hash>)
    requires |hs| > 0
    ensures Concat(AllPieces(n, hs)) == Concat(AllPieces(n, hs[..|hs| - 1])) + U32(HASH_LEN) + hs[|hs| - 1]
  {
    hide U32;
    var before, len, last := AllPieces(n, hs[..|hs| - 1]), U32(HASH_LEN), hs[|hs| - 1];
    assert AllPieces(n, hs) == before + [len] + [last];
    ConcatStep(before + [len], last);
    ConcatStep(before, len);
  }

  lemma {:induction false} CountFirst(n: nat, hs: seq<Hash>)
    ensures |Concat(AllPieces(n, hs))| >= 4 && Concat(AllPieces(n, hs))[..4] == U32(n)
  {
    hide U32, Concat, AllPieces;
    if |hs| == 0 {
      OnlyCount(n);
    } else {
      CountFirst(n, hs[..|hs| - 1]);
      LastRecord(n, hs);
    }
  }

  lemma OnlyCount(n: nat)
    ensures Concat(AllPieces(n, [])) == U32(n)
  {
    hide U32;
    assert AllPieces(n, []) == [] + [U32(n)];
    ConcatStep([], U32(n));
  }

  /** The writer fills a buffer of 4 + 38 * n bytes exactly, without overflow. */
  lemma BufferIsFilled(hs: seq<Hash>)
    ensures
      var w := PutAll(Written([], BufferSize(|hs|), false), AllPieces(|hs|, InOrder(hs)));
      w == Written(Preimage(hs), BufferSize(|hs|), false) && |w.bytes| == BufferSize(|hs|)
  {
    InOrderSorts(hs);
    assert |InOrder(hs)| == |multiset(hs)| == |hs|;
    PiecesSize(|hs|, InOrder(hs));
    AllOrOverflow(BufferSize(|hs|), AllPieces(|hs|, InOrder(hs)));
    CapacityStays(BufferSize(|hs|), AllPieces(|hs|, InOrder(hs)));
  }

  lemma {:induction false} CapacityStays(capacity: nat, ps: seq<seq<Byte>>)
    ensures PutAll(Written([], capacity, false), ps).capacity == capacity
  {
    if |ps| > 0 {
      CapacityStays(capacity, ps[..|ps| - 1]);
    }
  }

  // ------------------------------------------------------------------ compute_multi_hash

  /** Sorting in place, by the comparison of hex spellings. */
  method SortHashes(hashes: array<Hash>, n: nat)
    requires n <= hashes.Length
    modifies hashes
    ensures hashes[..n] == InOrder(old(hashes[..n])) && hashes[n..] == old(hashes[n..])
  {
    for i := 0 to n
      invariant hashes[..i] == InOrder(old(hashes[..i])) && hashes[i..] == old(hashes[i..])
    {
      assert old(hashes[..i + 1])[..i] == old(hashes[..i]);
      InsertAt(hashes, i);
    }
  }

  lemma InsertStep(hs: seq<Hash>, x: Hash)
    ensures |hs| == 0 || CompareHashesHex(hs[|hs| - 1], x) <= 0 ==> Insert(hs, x) == hs + [x]
    ensures |hs| > 0 && CompareHashesHex(hs[|hs| - 1], x) > 0 ==> Insert(hs, x) == Insert(hs[..|hs| - 1], x) + [hs[|hs| - 1]]
  {
    hide CompareHashesHex;
    if |hs| > 0 {
      HexOrderIsByteOrder(hs[|hs| - 1], x);
    }
  }

  /** Element i sinks to its place among the sorted ones before it. */
  method InsertAt(hashes: array<Hash>, i: nat)
    requires i < hashes.Length
    modifies hashes
    ensures hashes[..i + 1] == Insert(old(hashes[..i]), old(hashes[i])) && hashes[i + 1..] == old(hashes[i + 1..])
  {
    hide Insert, CompareHashesHex;
    ghost var x, sorted, target := hashes[i], hashes[..i], Insert(hashes[..i], hashes[i]);
    var j := i;
    assert sorted[..i] == sorted && target + [] == target;
    while j > 0 && CompareHashesHex(hashes[j - 1], hashes[j]) > 0
      invariant j <= i && hashes[j] == x && hashes[i + 1..] == old(hashes[i + 1..])
      invariant forall m :: 0 <= m < j ==> hashes[m] == sorted[m]
      invariant Insert(sorted[..j], x) + hashes[j + 1..i + 1] == target
    {
      ghost var behind := hashes[j + 1..i + 1];
      InsertStep(sorted[..j], x);
      assert sorted[..j][..j - 1] == sorted[..j - 1];
      hashes[j - 1], hashes[j] := hashes[j], hashes[j - 1];
      Shifted(hashes, j, i, sorted[j - 1], behind, Insert(sorted[..j - 1], x));
      j := j - 1;
    }
    InsertStep(sorted[..j], x);
    assert hashes[..i + 1] == (sorted[..j] + [x]) + hashes[j + 1..i + 1];
  }

  lemma Shifted(hashes: array<Hash>, j: nat, i: nat, y: Hash, behind: seq<Hash>, front: seq<Hash>)
    requires j <= i < hashes.Length && hashes[j] == y && hashes[j + 1..i + 1] == behind
    ensures front + hashes[j..i + 1] == (front + [y]) + behind
  {
    assert hashes[j..i + 1] == [y] + behind;
  }

  /** compute_multi_hash over the stored hashes. */
  method ComputeMultiHash(h: Sha256, hashes: array<Hash>, count: nat) returns (multi: Hash)
    requires count <= hashes.Length
    modifies hashes
    ensures multi == MultiHashOf(h, old(hashes[..count]))
  {
    hide U32, InOrder, AllPieces, PutAll, Preimage, CantonHash, ByteWriter.PutBytes;
    ghost var hs := hashes[..count];
    var len := count * HASH_LEN + count * 4 + 4;
    var concat := new Byte[len](_ => 0);
    var bw := new ByteWriter.Writer(concat);
    ghost var start := bw.Model();
    bw.PutU32Be(count);
    SortHashes(hashes, count);
    WriterStarts(start, count);
    for i := 0 to count
      invariant bw.Valid() && bw.base == concat && hashes[..count] == InOrder(hs)
      invariant bw.Model() == PutAll(start, AllPieces(count, InOrder(hs)[..i]))
    {
      bw.PutU32Be(HASH_LEN);
      bw.Put(hashes[i]);
      WriterStep(start, count, InOrder(hs), i);
    }
    assert InOrder(hs)[..count] == InOrder(hs);
    BufferIsFilled(hs);
    FullBuffer(bw.Model(), start, hs);
    assert concat[..] == concat[..bw.ptr];
    return CantonHash(h, PURPOSE_MULTI_TOPOLOGY_TRANSACTION_SIGNATURE, concat[..]);
  }

  lemma FullBuffer(w: Written, start: Written, hs: seq<Hash>)
    requires start == Written([], BufferSize(|hs|), false) && w == PutAll(start, AllPieces(|hs|, InOrder(hs)))
    ensures w.bytes == Preimage(hs) && |w.bytes| == w.capacity && !w.overflow
  {
    hide AllPieces, InOrder, PutAll, Preimage;
    BufferIsFilled(hs);
  }

  lemma WriterStarts(w: Written, n: nat)
    ensures PutAll(w, AllPieces(n, [])) == ByteWriter.PutBytes(w, U32(n))
  {
    assert AllPieces(n, []) == [U32(n)];
    assert [U32(n)][..0] == [];
  }

  lemma WriterStep(w: Written, n: nat, hs: seq<Hash>, i: nat)
    requires i < |hs|
    ensures PutAll(w, AllPieces(n, hs[..i + 1])) == ByteWriter.PutBytes(ByteWriter.PutBytes(PutAll(w, AllPieces(n, hs[..i])), U32(HASH_LEN)), hs[i])
  {
    var before, len := AllPieces(n, hs[..i]), U32(HASH_LEN);
    assert hs[..i + 1][..i] == hs[..i];
    var all := AllPieces(n, hs[..i + 1]);
    assert all == before + [len] + [hs[i]];
    assert all[..|all| - 1] == before + [len];
    assert (before + [len])[..|before|] == before;
  }
}
