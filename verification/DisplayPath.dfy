/** The escaped field path of the display parser (pb_node_display_parser.c) and its amount formatting. */
module DisplayPath {
  import opened Bytes
  import opened CStrings
  import opened HoldingWalk
  import opened NodeTreeCheck

  const MAX_FIELD_PATH_LEN: nat := 128
  const BACKSLASH: Byte := 92

  // ------------------------------------------------------------------ escaping and its inverse

  /** Each dot gets a backslash in front. */
  function Escape(seg: seq<Byte>): seq<Byte>
  {
    if |seg| == 0 then [] else (if seg[0] == DOT then [BACKSLASH, DOT] else [seg[0]]) + Escape(seg[1..])
  }

  /** The path of some segments, outermost first. */
  function Render(segs: seq<seq<Byte>>): seq<Byte>
  {
    if |segs| == 0 then []
    else if |segs| == 1 then Escape(segs[0])
    else Escape(segs[0]) + [DOT] + Render(segs[1..])
  }

  /** Reading a path back: a dot that follows a backslash is part of its segment, any other separates. */
  function ParseFrom(s: seq<Byte>, current: seq<Byte>): (segs: seq<seq<Byte>>)
    ensures |segs| > 0
    decreases |s|
  {
    if |s| == 0 then [current]
    else if s[0] == BACKSLASH && |s| > 1 && s[1] == DOT then ParseFrom(s[2..], current + [DOT])
    else if s[0] == DOT then [current] + ParseFrom(s[1..], [])
    else ParseFrom(s[1..], current + [s[0]])
  }

  function Parse(s: seq<Byte>): seq<seq<Byte>> { ParseFrom(s, []) }

  predicate EndsWithBackslash(seg: seq<Byte>) { |seg| > 0 && seg[|seg| - 1] == BACKSLASH }

  /** An escaped segment is read back whole, unless it ends in a backslash right before a separator. */
  lemma {:induction false} ParseEscaped(seg: seq<Byte>, rest: seq<Byte>, current: seq<Byte>)
    requires EndsWithBackslash(seg) ==> |rest| == 0 || rest[0] != DOT
    ensures ParseFrom(Escape(seg) + rest, current) == ParseFrom(rest, current + seg)
    decreases |seg|
  {
    hide *;
    if |seg| == 0 {
      EscapeNothing();
      assert [] + rest == rest && current + seg == current;
      assert seg == [];
    } else {
      var c, t := seg[0], seg[1..];
      var tail := Escape(t) + rest;
      ParseEscaped(t, rest, current + [c]) by { TailEnds(seg, t); }
      assert seg == [c] + t;
      Assoc(current, [c], t);
      EscapeStep(seg);
      if c == DOT {
        Assoc([BACKSLASH, DOT], Escape(t), rest);
        ParseEscapedDot(tail, current);
      } else {
        Assoc([c], Escape(t), rest);
        EscapeStart(t);
        if |t| == 0 {
          EscapeNothing();
          assert t == [] && [] + rest == rest && seg == [c];
          EndsItself(c);
        }
        ParsePlain(c, tail, current);
      }
    }
  }

  lemma TailEnds(seg: seq<Byte>, t: seq<Byte>)
    requires |seg| > 0 && t == seg[1..]
    ensures EndsWithBackslash(t) ==> EndsWithBackslash(seg)
  {
  }

  lemma EndsItself(c: Byte)
    ensures EndsWithBackslash([c]) <==> c == BACKSLASH
  {
  }

  lemma ParseEscapedDot(tail: seq<Byte>, current: seq<Byte>)
    ensures ParseFrom([BACKSLASH, DOT] + tail, current) == ParseFrom(tail, current + [DOT])
  {
    assert ([BACKSLASH, DOT] + tail)[2..] == tail;
  }

  lemma ParsePlain(c: Byte, tail: seq<Byte>, current: seq<Byte>)
    requires c != DOT && (c == BACKSLASH && |tail| > 0 ==> tail[0] != DOT)
    ensures ParseFrom([c] + tail, current) == ParseFrom(tail, current + [c])
  {
    Untag(c, tail);
  }

  lemma EscapeStep(t: seq<Byte>)
    requires |t| > 0
    ensures Escape(t) == (if t[0] == DOT then [BACKSLASH, DOT] else [t[0]]) + Escape(t[1..])
  {
  }

  lemma EscapeNothing()
    ensures Escape([]) == []
  {
  }

  lemma EscapeStart(t: seq<Byte>)
    ensures |Escape(t)| >= |t| && (|t| > 0 ==> Escape(t)[0] != DOT)
  {
  }

  /** Parsing only adds to the segment it started with. */
  lemma {:induction false} ParsePrefix(s: seq<Byte>, current: seq<Byte>)
    ensures |ParseFrom(s, current)[0]| >= |current| && ParseFrom(s, current)[0][..|current|] == current
    decreases |s|
  {
    if |s| > 0 {
      if s[0] == BACKSLASH && |s| > 1 && s[1] == DOT {
        ParsePrefix(s[2..], current + [DOT]);
        assert ParseFrom(s, current)[0][..|current|] == (current + [DOT])[..|current|];
      } else if s[0] != DOT {
        ParsePrefix(s[1..], current + [s[0]]);
        assert ParseFrom(s, current)[0][..|current|] == (current + [s[0]])[..|current|];
      }
    }
  }

  lemma {:induction false} EscapeAppend(a: seq<Byte>, b: seq<Byte>)
    ensures Escape(a + b) == Escape(a) + Escape(b)
    decreases |a|
  {
    if |a| == 0 {
      assert a + b == b;
    } else {
      assert (a + b)[1..] == a[1..] + b;
      EscapeAppend(a[1..], b);
    }
  }

  /** A trailing backslash swallows the separator behind it. */
  lemma SwallowsSeparator(seg: seq<Byte>, rest: seq<Byte>)
    requires EndsWithBackslash(seg)
    ensures Parse(Escape(seg) + [DOT] + rest)[0] != seg
  {
    var t := seg[..|seg| - 1];
    assert seg == t + [BACKSLASH];
    EscapeAppend(t, [BACKSLASH]);
    assert Escape([BACKSLASH]) == [BACKSLASH] + Escape([]) == [BACKSLASH];
    var tail := [BACKSLASH, DOT] + rest;
    assert Escape(seg) + [DOT] + rest == Escape(t) + tail;
    ParseEscaped(t, tail, []);
    assert [] + t == t;
    assert tail[2..] == rest;
    ParsePrefix(rest, t + [DOT]);
    assert ParseFrom(rest, t + [DOT])[0][..|t| + 1][|t|] == DOT;
  }

  /** Only the last segment may end in a backslash. */
  predicate Separable(segs: seq<seq<Byte>>) { forall i :: 0 <= i < |segs| - 1 ==> !EndsWithBackslash(segs[i]) }

  /** The exact round trip: a path reads back as its segments if and only if no segment but the last ends
      in a backslash. In particular segments without backslashes always do. */
  lemma {:induction false} PathRoundTrip(segs: seq<seq<Byte>>)
    requires |segs| > 0
    ensures Parse(Render(segs)) == segs <==> Separable(segs)
    decreases |segs|
  {
    if |segs| == 1 {
      ParseEscaped(segs[0], [], []);
      assert Escape(segs[0]) + [] == Escape(segs[0]) && [] + segs[0] == segs[0];
      assert segs == [segs[0]];
    } else {
      var rest := Render(segs[1..]);
      if EndsWithBackslash(segs[0]) {
        SwallowsSeparator(segs[0], rest);
      } else {
        ParseEscaped(segs[0], [DOT] + rest, []);
        assert Escape(segs[0]) + [DOT] + rest == Escape(segs[0]) + ([DOT] + rest) && [] + segs[0] == segs[0];
        assert ([DOT] + rest)[1..] == rest;
        PathRoundTrip(segs[1..]);
        assert segs == [segs[0]] + segs[1..];
        assert Separable(segs) <==> Separable(segs[1..]) by {
          assert forall i :: 0 < i < |segs| ==> segs[i] == segs[1..][i - 1];
        }
      }
    }
  }

  /** Two different paths that are written the same. */
  lemma BackslashCollides()
    ensures
      var a, b, ab := [97, 92], [98], [97, 46, 98];
      Render([a, b]) == Render([ab]) == [97, 92, 46, 98]
  {
    var a, b, ab := [97, BACKSLASH], [98], [97, DOT, 98];
    assert a[1..] == [BACKSLASH] && a[1..][1..] == [] && b[1..] == [] && ab[1..] == [DOT, 98] && ab[1..][1..] == b;
    assert Escape(b) == [98] && Escape(a) == a;
    assert Escape([DOT, 98]) == [BACKSLASH, DOT] + Escape(b);
    assert Render([a, b]) == Escape(a) + [DOT] + Render([b]) by {
      assert [a, b][1..] == [b];
    }
  }

  // ------------------------------------------------------------------ pushing and cutting

  /** The path after a push, or None when it would not fit: a separator is counted even before the first segment. */
  function PushOne(path: seq<Byte>, seg: seq<Byte>): Option<seq<Byte>>
  {
    if |path| + 1 + |Escape(seg)| >= MAX_FIELD_PATH_LEN then None
    else Some(path + (if |path| > 0 then [DOT] else []) + Escape(seg))
  }

  function PushAll(segs: seq<seq<Byte>>): Option<seq<Byte>>
  {
    if |segs| == 0 then Some([])
    else match PushAll(segs[..|segs| - 1])
      case None => None
      case Some(path) => PushOne(path, segs[|segs| - 1])
  }

  lemma {:induction false} RenderAppend(segs: seq<seq<Byte>>, seg: seq<Byte>)
    requires |segs| > 0
    ensures Render(segs + [seg]) == Render(segs) + [DOT] + Escape(seg)
    decreases |segs|
  {
    hide Escape;
    var longer := segs + [seg];
    assert longer[1..] == segs[1..] + [seg];
    if |segs| == 1 {
      assert segs[1..] + [seg] == [seg];
    } else {
      RenderAppend(segs[1..], seg);
    }
  }

  lemma {:induction false} RenderIsNonEmpty(segs: seq<seq<Byte>>)
    requires |segs| > 0 && |segs[0]| > 0
    ensures |Render(segs)| >= |Escape(segs[0])| > 0
  {
    EscapeStart(segs[0]);
  }

  /** Nested pushes write the path of the segments, exactly while it fits the buffer. */
  lemma {:induction false} PushesRender(segs: seq<seq<Byte>>)
    requires |segs| > 0 && forall i :: 0 <= i < |segs| ==> |segs[i]| > 0
    ensures PushAll(segs) ==
      if |Render(segs)| < MAX_FIELD_PATH_LEN && |Escape(segs[0])| + 1 < MAX_FIELD_PATH_LEN then Some(Render(segs)) else None
    decreases |segs|
  {
    hide Escape;
    var k := |segs| - 1;
    if k == 0 {
      assert segs[..0] == [];
      assert [] + [] + Escape(segs[0]) == Escape(segs[0]);
    } else {
      PushesRender(segs[..k]);
      RenderAppend(segs[..k], segs[k]);
      RenderIsNonEmpty(segs[..k]);
      assert segs[..k] + [segs[k]] == segs;
    }
  }

  lemma NoBackslashAtEnd(seg: seq<Byte>)
    requires BACKSLASH !in seg
    ensures !EndsWithBackslash(seg)
  {
  }

  /** What a path buffer holds is read back as the labels and keys on the way to the value. */
  lemma PushedPathReadsBack(segs: seq<seq<Byte>>)
    requires |segs| > 0 && (forall i :: 0 <= i < |segs| ==> |segs[i]| > 0 && BACKSLASH !in segs[i])
    ensures PushAll(segs).Some? ==> Parse(PushAll(segs).value) == segs
  {
    hide Parse, Render;
    PushesRender(segs);
    forall i | 0 <= i < |segs| - 1
      ensures !EndsWithBackslash(segs[i])
    {
      NoBackslashAtEnd(segs[i]);
    }
    PathRoundTrip(segs);
  }

  class FieldPath {
    const path: array<Byte>
    var unreadable: bool

    ghost predicate Valid()
      reads path
    {
      path.Length == 128 && |CString(path[..])| < 128
    }

    ghost function Path(): seq<Byte>
      reads path
    {
      CString(path[..])
    }

    constructor ()
      ensures Valid() && Path() == [] && !unreadable && fresh(path)
    {
      path := new Byte[128](_ => 0);
      unreadable := false;
      new;
      CStringIs(path[..], 0);
    }

    /** The first loop of push_path counts the bytes the second one writes. */
    static method CountEscaped(seg: seq<Byte>) returns (n: nat)
      ensures n == |Escape(seg)|
    {
      n := 0;
      assert seg[0..] == seg;
      for i := 0 to |seg|
        invariant n + |Escape(seg[i..])| == |Escape(seg)|
      {
        assert seg[i..][1..] == seg[i + 1..];
        if seg[i] == DOT {
          n := n + 1;
        }
        n := n + 1;
      }
    }

    method WriteEscaped(at: nat, seg: seq<Byte>)
      requires path.Length == 128 && at + |Escape(seg)| < 128
      modifies path
      ensures path[..at] == old(path[..at]) && path[at..at + |Escape(seg)|] == Escape(seg) && path[at + |Escape(seg)|] == 0
    {
      hide Escape;
      EscapeNothing();
      var len := at;
      assert seg[0..] == seg;
      for i := 0 to |seg|
        invariant at <= len && len + |Escape(seg[i..])| == at + |Escape(seg)|
        invariant path[..at] == old(path[..at]) && path[at..len] + Escape(seg[i..]) == Escape(seg)
      {
        ghost var done, rest := path[at..len], seg[i..];
        assert rest[0] == seg[i] && rest[1..] == seg[i + 1..];
        EscapeStep(rest);
        if seg[i] == DOT {
          path[len] := BACKSLASH;
          len := len + 1;
        }
        path[len] := seg[i];
        len := len + 1;
        assert path[at..len] == done + if seg[i] == DOT then [BACKSLASH, DOT] else [seg[i]];
        assert done + Escape(rest) == path[at..len] + Escape(seg[i + 1..]);
      }
      path[len] := 0;
      assert seg[|seg|..] == [] && path[at..len] + [] == path[at..len];
    }

    /** push_path with its escaping; a segment that does not fit makes the node unreadable. */
    method PushPath(seg: seq<Byte>)
      requires Valid() && 0 !in seg
      modifies `unreadable, path
      ensures Valid() && unreadable == (old(unreadable) || PushOne(old(Path()), seg).None?)
      ensures Path() == if PushOne(old(Path()), seg).Some? then PushOne(old(Path()), seg).value else old(Path())
    {
      hide Escape, CString;
      var len := StrLen(path);
      var add := CountEscaped(seg);
      if len + 1 + add >= MAX_FIELD_PATH_LEN {
        unreadable := true;
        return;
      }
      ghost var before := Path();
      if len > 0 {
        path[len] := DOT;
        len := len + 1;
      }
      assert path[..len] == before + (if |before| > 0 then [DOT] else []);
      WriteEscaped(len, seg);
      EscapeHasNoNul(seg);
      assert path[..len + add] == path[..len] + path[len..len + add];
      CStringIs(path[..], len + add);
    }

    /** read_path_segment: empty, over-long and NUL-bearing segments make the node unreadable. */
    method ReadPathSegment(seg: seq<Byte>)
      requires Valid()
      modifies `unreadable, path
      ensures Valid()
      ensures
        var readable := 0 < |seg| < DEFAULT_DECODE_BUFFER_SIZE && 0 !in seg;
        var next := if readable then PushOne(old(Path()), seg) else None;
        Path() == (if next.Some? then next.value else old(Path())) && unreadable == (old(unreadable) || next.None?)
    {
      if |seg| >= DEFAULT_DECODE_BUFFER_SIZE {
        unreadable := true;
        return;
      }
      if |seg| == 0 || 0 in seg {
        unreadable := true;
        return;
      }
      PushPath(seg);
    }

    /** A push followed by the cut of decode_record_field leaves the path as it was. */
    method PushAndCut(seg: seq<Byte>)
      requires Valid()
      modifies `unreadable, path
      ensures Valid() && Path() == old(Path())
    {
      var parent := StrLen(path);
      ghost var before := Path();
      ReadPathSegment(seg);
      assert Path()[..parent] == before;
      CutAt(path, parent);
    }
  }

  lemma {:induction false} EscapeHasNoNul(seg: seq<Byte>)
    requires 0 !in seg
    ensures 0 !in Escape(seg)
  {
    if |seg| > 0 {
      EscapeHasNoNul(seg[1..]);
    }
  }

  // ------------------------------------------------------------------ amounts

  const ZERO_DIGIT: Byte := 48

  /** Trailing zeros go, but nothing at or before position keep. */
  function StripZeros(s: seq<Byte>, keep: nat): (t: seq<Byte>)
    requires keep < |s|
    ensures keep < |t| <= |s| && t == s[..|t|]
    decreases |s|
  {
    if |s| - 1 > keep && s[|s| - 1] == ZERO_DIGIT then StripZeros(s[..|s| - 1], keep) else s
  }

  /** format_amount_field: no trailing zeros after the dot, and no dot at the end. */
  function TrimAmount(s: seq<Byte>): seq<Byte>
  {
    var dot := FirstDot(s);
    if dot == |s| then s
    else
      var t := StripZeros(s, dot);
      if |t| == dot + 1 then t[..dot] else t
  }

  /** The fraction after the dot. */
  function Fraction(ds: seq<Byte>): real
  {
    if |ds| == 0 then 0.0
    else
      var first: int := ds[0];
      ((first - 48) as real + Fraction(ds[1..])) / 10.0
  }

  /** The number an amount string denotes. */
  function Amount(s: seq<Byte>): real
    requires AllDigits(s[..FirstDot(s)])
  {
    var dot := FirstDot(s);
    Decimal(s[..dot]) as real + if dot == |s| then 0.0 else Fraction(s[dot + 1..])
  }

  lemma {:induction false} FractionDropsZero(ds: seq<Byte>)
    ensures Fraction(ds + [ZERO_DIGIT]) == Fraction(ds)
  {
    if |ds| == 0 {
      assert [ZERO_DIGIT][1..] == [] && ds + [ZERO_DIGIT] == [ZERO_DIGIT];
      assert Fraction([ZERO_DIGIT]) == (0.0 + Fraction([])) / 10.0;
    } else {
      assert (ds + [ZERO_DIGIT])[1..] == ds[1..] + [ZERO_DIGIT];
      FractionDropsZero(ds[1..]);
    }
  }

  lemma {:induction false} StripKeepsFraction(s: seq<Byte>, keep: nat)
    requires keep < |s|
    ensures Fraction(StripZeros(s, keep)[keep + 1..]) == Fraction(s[keep + 1..])
    ensures var t := StripZeros(s, keep); |t| > keep + 1 ==> t[|t| - 1] != ZERO_DIGIT
    decreases |s|
  {
    if |s| - 1 > keep && s[|s| - 1] == ZERO_DIGIT {
      var r := s[..|s| - 1];
      StripKeepsFraction(r, keep);
      assert s[keep + 1..] == r[keep + 1..] + [ZERO_DIGIT];
      FractionDropsZero(r[keep + 1..]);
    }
  }

  lemma NoFraction()
    ensures Fraction([]) == 0.0
  {
  }

  lemma FirstDotOfPrefix(s: seq<Byte>, n: nat)
    requires FirstDot(s) <= n <= |s|
    ensures FirstDot(s[..n]) == FirstDot(s)
    ensures s[..n][..FirstDot(s)] == s[..FirstDot(s)]
  {
    assert forall j :: 0 <= j < n ==> s[..n][j] == s[j];
    assert s[..n][..FirstDot(s)] == s[..FirstDot(s)];
  }

  /** Trimming an amount does not change what it denotes, and leaves no trailing zero or dot behind one. */
  lemma TrimKeepsAmount(s: seq<Byte>)
    requires AllDigits(s[..FirstDot(s)])
    ensures TrimAmount(s) <= s && FirstDot(TrimAmount(s)) == FirstDot(s)
    ensures AllDigits(TrimAmount(s)[..FirstDot(s)]) && Amount(TrimAmount(s)) == Amount(s)
    ensures var t := TrimAmount(s); FirstDot(s) < |t| ==> FirstDot(s) + 1 < |t| && t[|t| - 1] != ZERO_DIGIT
  {
    hide StripZeros, Decimal, AllDigits, Fraction, FirstDot;
    var dot := FirstDot(s);
    if dot < |s| {
      var t := StripZeros(s, dot);
      StripKeepsFraction(s, dot);
      FirstDotOfPrefix(s, |t|);
      FirstDotOfPrefix(s, dot);
      NoFraction();
      assert |t| == dot + 1 ==> t[dot + 1..] == [] && t[..dot] == s[..dot];
    }
  }

  /** The string in place: len is strlen, and cutting writes the terminator. */
  method FormatAmount(value: array<Byte>, len: nat) returns (after: nat)
    requires len <= value.Length && 0 !in value[..len]
    modifies value
    ensures after <= len && value[..after] == TrimAmount(old(value[..len])) && (after < len ==> value[after] == 0)
  {
    after := len;
    if len == 0 {
      return;
    }
    ghost var s := value[..len];
    var dot := FindDot(value, len);
    if dot == len {
      return;
    }
    var end := len - 1;
    while end > dot && value[end] == ZERO_DIGIT
      invariant dot <= end < len && value[..end + 1] == s[..end + 1]
      invariant StripZeros(s[..end + 1], dot) == StripZeros(s, dot)
      invariant end < len - 1 ==> value[end + 1] == 0
      invariant dot == FirstDot(s)
    {
      assert s[..end + 1][..end] == s[..end];
      value[end] := 0;
      end := end - 1;
    }
    after := end + 1;
    assert s[..end + 1] == StripZeros(s, dot);
    if end == dot {
      value[end] := 0;
      after := end;
    }
  }

  method FindDot(value: array<Byte>, len: nat) returns (k: nat)
    requires len <= value.Length
    ensures k == FirstDot(value[..len])
  {
    k := 0;
    while k < len && value[k] != DOT
      invariant k <= len && forall j :: 0 <= j < k ==> value[j] != DOT
    {
      k := k + 1;
    }
    assert forall j :: 0 <= j < len ==> value[..len][j] == value[j];
  }
}
