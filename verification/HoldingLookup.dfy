/** The holding walk is a lookup: on well-labelled arguments it reports a holding exactly when, among the
    look-ups before the first path that does not fit the buffer, each configured path has one match. */
module HoldingLookup {
  import opened Bytes
  import opened CanonicalValue
  import opened ValuesCheck
  import opened ValuesVerdict
  import opened HoldingWalk

  // ------------------------------------------------------------------ the declarative lookup

  /** The values a list of labels leads to. */
  function At(fs: seq<Field>, names: seq<seq<Byte>>): seq<Value>
    requires |names| > 0
    decreases |names|, |fs|
  {
    if |fs| == 0 then [] else AtField(fs[0], names) + At(fs[1..], names)
  }

  function AtField(f: Field, names: seq<seq<Byte>>): seq<Value>
    requires |names| > 0
    decreases |names|, 0
  {
    if f.name != names[0] then []
    else if |names| == 1 then [f.fieldValue]
    else if f.fieldValue.Record? then At(f.fieldValue.fields, names[1..])
    else []
  }

  /** The parties and numbers among some values, and the texts. */
  function Strings(vs: seq<Value>): seq<Str>
  {
    if |vs| == 0 then []
    else
      var k := |vs| - 1;
      Strings(vs[..k]) + (match vs[k] case Party(s) => [s] case Numeric(s) => [s] case _ => [])
  }

  function Texts(vs: seq<Value>): seq<Str>
  {
    if |vs| == 0 then []
    else
      var k := |vs| - 1;
      Texts(vs[..k]) + if vs[k].Text? then [vs[k].text] else []
  }

  function FieldsOf(v: Value): seq<Field> { if v.Record? then v.fields else [] }

  /** The strings a configured dotted path leads to. */
  function LeavesAt(v: Value, path: Str): seq<Str> { Strings(At(FieldsOf(v), Split(path))) }
  function TextLeavesAt(v: Value, path: Str): seq<Str> { Texts(At(FieldsOf(v), Split(path))) }

  // ------------------------------------------------------------------ the domain

  predicate GoodLabel(l: seq<Byte>) { 0 < |l| < DEFAULT_DECODE_BUFFER_SIZE && 0 !in l && DOT !in l }

  /** Labels are present, short, and free of NULs, down to the last level that is opened. */
  predicate Labelled(depth: nat, fs: seq<Field>)
    decreases fs
  {
    forall i :: 0 <= i < |fs| ==> LabelledField(depth, fs[i])
  }

  predicate LabelledField(depth: nat, f: Field)
    decreases f
  {
    0 < |f.name| < DEFAULT_DECODE_BUFFER_SIZE && 0 !in f.name &&
    (f.fieldValue.Record? && depth < MAX_LABEL_DEPTH ==> Labelled(depth + 1, f.fieldValue.fields))
  }

  /** Labels are also free of dots. */
  predicate WellLabelled(depth: nat, fs: seq<Field>)
    decreases fs
  {
    forall i :: 0 <= i < |fs| ==> WellLabelledField(depth, fs[i])
  }

  predicate WellLabelledField(depth: nat, f: Field)
    decreases f
  {
    GoodLabel(f.name) && (f.fieldValue.Record? && depth < MAX_LABEL_DEPTH ==> WellLabelled(depth + 1, f.fieldValue.fields))
  }

  lemma {:induction false} GoodLabelsAreLabels(depth: nat, fs: seq<Field>)
    requires WellLabelled(depth, fs)
    ensures Labelled(depth, fs)
    decreases fs
  {
    forall i | 0 <= i < |fs|
      ensures LabelledField(depth, fs[i])
    {
      GoodFieldIsLabelled(depth, fs[i]);
    }
  }

  lemma {:induction false} GoodFieldIsLabelled(depth: nat, f: Field)
    requires WellLabelledField(depth, f)
    ensures LabelledField(depth, f)
    decreases f
  {
    if f.fieldValue.Record? && depth < MAX_LABEL_DEPTH {
      GoodLabelsAreLabels(depth + 1, f.fieldValue.fields);
    }
  }

  predicate GoodPath(p: Str)
  {
    |Split(p)| <= MAX_LABEL_DEPTH && forall i :: 0 <= i < |Split(p)| ==> GoodLabel(Split(p)[i])
  }

  predicate DistinctPaths(c: Config) { c.ownerPath != c.amountPath && c.ownerPath != c.adminPath && c.amountPath != c.adminPath }

  /** Three distinct paths of at most six labels, and perhaps one for the instrument. */
  predicate GoodConfig(c: Config)
  {
    GoodPath(c.ownerPath) && GoodPath(c.amountPath) && GoodPath(c.adminPath) && (c.idPath.Some? ==> GoodPath(c.idPath.value)) &&
    DistinctPaths(c)
  }

  // ------------------------------------------------------------------ the walk as a list of look-ups

  /** One call of find_holding_field. */
  datatype Look = Look(path: seq<Byte>, value: Value)

  function Looks(path: seq<Byte>, depth: nat, fs: seq<Field>): seq<Look>
    decreases fs
  {
    if |fs| == 0 then [] else LooksField(path, depth, fs[0]) + Looks(path, depth, fs[1..])
  }

  function LooksField(path: seq<Byte>, depth: nat, f: Field): seq<Look>
    decreases f, 1
  {
    Under(path, depth, f) + [Look(Extended(path, f.name), f.fieldValue)]
  }

  function Under(path: seq<Byte>, depth: nat, f: Field): seq<Look>
    decreases f, 0
  {
    if f.fieldValue.Record? && depth < MAX_LABEL_DEPTH then Looks(Extended(path, f.name), depth + 1, f.fieldValue.fields) else []
  }

  predicate AllFit(ls: seq<Look>) { |ls| > 0 ==> |ls[0].path| < MAX_LABEL_PATH_LEN && AllFit(ls[1..]) }

  /** The look-ups up to the first path that does not fit the buffer. */
  function Fitting(ls: seq<Look>): seq<Look>
  {
    if |ls| == 0 || |ls[0].path| >= MAX_LABEL_PATH_LEN then [] else [ls[0]] + Fitting(ls[1..])
  }

  function FindAll(h: Sha256, c: Config, w: Found, ls: seq<Look>): Found
  {
    if |ls| == 0 then w
    else
      var k := |ls| - 1;
      FindField(h, c, ls[k].path, ls[k].value, FindAll(h, c, w, ls[..k]))
  }

  lemma {:induction false} FindAllConcat(h: Sha256, c: Config, w: Found, a: seq<Look>, b: seq<Look>)
    ensures FindAll(h, c, w, a + b) == FindAll(h, c, FindAll(h, c, w, a), b)
    decreases |b|
  {
    hide FindField;
    if |b| == 0 {
      assert a + b == a;
    } else {
      var k := |b| - 1;
      assert (a + b)[..|a + b| - 1] == a + b[..k];
      FindAllConcat(h, c, w, a, b[..k]);
    }
  }

  lemma FindFieldKeepsMatching(h: Sha256, c: Config, path: seq<Byte>, v: Value, w: Found)
    ensures FindField(h, c, path, v, w).matching == w.matching
  {
  }

  lemma {:induction false} FindAllKeepsMatching(h: Sha256, c: Config, w: Found, ls: seq<Look>)
    ensures FindAll(h, c, w, ls).matching == w.matching
    decreases |ls|
  {
    hide FindField;
    if |ls| > 0 {
      var k := |ls| - 1;
      FindAllKeepsMatching(h, c, w, ls[..k]);
      FindFieldKeepsMatching(h, c, ls[k].path, ls[k].value, FindAll(h, c, w, ls[..k]));
    }
  }

  lemma NothingFound(h: Sha256, c: Config, w: Found)
    ensures FindAll(h, c, w, []) == w
  {
  }

  lemma LooksStep(h: Sha256, c: Config, w: Found, ls: seq<Look>, l: Look)
    ensures FindAll(h, c, w, ls + [l]) == FindField(h, c, l.path, l.value, FindAll(h, c, w, ls))
  {
    hide FindField;
    assert (ls + [l])[..|ls|] == ls;
  }

  // ------------------------------------------------------------------ paths as label lists

  /** The path string of some labels below a path. */
  function Target(path: seq<Byte>, names: seq<seq<Byte>>): seq<Byte>
    decreases |names|
  {
    if |names| == 0 then path else Target(Extended(path, names[0]), names[1..])
  }

  predicate GoodLabels(names: seq<seq<Byte>>) { forall i :: 0 <= i < |names| ==> GoodLabel(names[i]) }

  /** q is p, or continues it after a dot. */
  predicate Continues(q: seq<Byte>, p: seq<Byte>) { |p| <= |q| && q[..|p|] == p && (|p| < |q| ==> q[|p|] == DOT) }

  lemma ContinuesExtended(p: seq<Byte>, l: seq<Byte>, q: seq<Byte>)
    requires |p| > 0 && |l| > 0 && Continues(q, Extended(p, l))
    ensures Continues(q, p) && |q| > |p|
  {
    assert q[..|p|] == Extended(p, l)[..|p|] == p;
    assert q[|p|] == Extended(p, l)[|p|] == DOT;
  }

  lemma {:induction false} TargetContinues(p: seq<Byte>, names: seq<seq<Byte>>)
    requires |p| > 0 && GoodLabels(names)
    ensures Continues(Target(p, names), p) && (|names| > 0 ==> |Target(p, names)| > |p|)
    decreases |names|
  {
    hide GoodLabel, Extended, Continues;
    if |names| == 0 {
      ContinuesSelf(p);
    } else {
      GoodLabelParts(names[0]);
      ExtendedIsLonger(p, names[0]);
      TargetContinues(Extended(p, names[0]), names[1..]);
      ContinuesExtended(p, names[0], Target(p, names));
    }
  }

  lemma ContinuesSelf(p: seq<Byte>)
    ensures Continues(p, p)
  {
  }

  lemma GoodLabelParts(l: seq<Byte>)
    requires GoodLabel(l)
    ensures |l| > 0
  {
  }

  lemma ExtendedIsLonger(p: seq<Byte>, l: seq<Byte>)
    requires |l| > 0
    ensures |Extended(p, l)| > |p|
  {
  }

  /** Every look-up below a path continues it. */
  lemma {:induction false} LooksContinue(p: seq<Byte>, depth: nat, fs: seq<Field>, i: nat)
    requires |p| > 0 && Labelled(depth, fs) && i < |Looks(p, depth, fs)|
    ensures Continues(Looks(p, depth, fs)[i].path, p) && |Looks(p, depth, fs)[i].path| > |p|
    decreases fs, 1
  {
    hide Continues, LooksField, LabelledField;
    var first := LooksField(p, depth, fs[0]);
    if i < |first| {
      FieldLooksContinue(p, depth, fs[0], i);
      LabelIsPresent(depth, fs[0]);
      ContinuesExtended(p, fs[0].name, first[i].path);
    } else {
      LooksContinue(p, depth, fs[1..], i - |first|);
    }
  }

  lemma LabelIsPresent(depth: nat, f: Field)
    requires LabelledField(depth, f)
    ensures 0 < |f.name| < DEFAULT_DECODE_BUFFER_SIZE && 0 !in f.name
  {
  }

  lemma {:induction false} FieldLooksContinue(p: seq<Byte>, depth: nat, f: Field, i: nat)
    requires LabelledField(depth, f) && i < |LooksField(p, depth, f)|
    ensures Continues(LooksField(p, depth, f)[i].path, Extended(p, f.name))
    ensures i < |Under(p, depth, f)| ==> |LooksField(p, depth, f)[i].path| > |Extended(p, f.name)|
    decreases f, 0
  {
    hide Continues, Looks, Extended, GoodLabel;
    var p1 := Extended(p, f.name);
    ExtendedIsLonger(p, f.name);
    if i < |Under(p, depth, f)| {
      LooksContinue(p1, depth + 1, f.fieldValue.fields, i);
    } else {
      ContinuesSelf(p1);
    }
  }

  lemma FirstDotOf(l: seq<Byte>, rest: seq<Byte>)
    requires DOT !in l && (|rest| > 0 ==> rest[0] == DOT)
    ensures FirstDot(l + rest) == |l|
  {
    var s := l + rest;
    assert forall j :: 0 <= j < |l| ==> s[j] == l[j] && l[j] in l;
    assert |rest| > 0 ==> s[|l|] == rest[0];
  }

  /** Different labels never lead to one path. */
  lemma LabelsSeparate(p: seq<Byte>, l: seq<Byte>, m: seq<Byte>, q: seq<Byte>)
    requires GoodLabel(l) && GoodLabel(m) && Continues(q, Extended(p, l)) && Continues(q, Extended(p, m))
    ensures l == m
  {
    var n := |p| + if |p| > 0 then 1 else 0;
    var rest := q[n..];
    assert rest == l + rest[|l|..] by {
      assert q[..n + |l|] == Extended(p, l);
      assert rest[..|l|] == q[..n + |l|][n..] == l;
    }
    assert rest == m + rest[|m|..] by {
      assert q[..n + |m|] == Extended(p, m);
      assert rest[..|m|] == q[..n + |m|][n..] == m;
    }
    FirstDotOf(l, rest[|l|..]);
    FirstDotOf(m, rest[|m|..]);
  }

  // ------------------------------------------------------------------ the walk is its fitting look-ups

  lemma {:induction false} FittingAll(ls: seq<Look>)
    requires AllFit(ls)
    ensures Fitting(ls) == ls
  {
    if |ls| > 0 {
      FittingAll(ls[1..]);
    }
  }

  lemma {:induction false} FittingConcat(a: seq<Look>, b: seq<Look>)
    ensures AllFit(a) ==> Fitting(a + b) == a + Fitting(b)
    ensures !AllFit(a) ==> Fitting(a + b) == Fitting(a)
    ensures AllFit(a + b) <==> AllFit(a) && AllFit(b)
    decreases |a|
  {
    if |a| == 0 {
      assert a + b == b;
    } else {
      assert (a + b)[1..] == a[1..] + b;
      FittingConcat(a[1..], b);
    }
  }

  /** A path that does not fit stops the matching and nothing else. */
  function Stop(w: Found, fits: bool): Found { if fits then w else w.(matching := false) }

  lemma StoppedFindsNothing(h: Sha256, c: Config, path: seq<Byte>, v: Value, w: Found)
    requires !w.matching
    ensures FindField(h, c, path, v, w) == w
  {
  }

  /** Once stopped, well-labelled fields change nothing. */
  lemma {:induction false} StoppedFieldChangesNothing(h: Sha256, c: Config, path: seq<Byte>, depth: nat, f: Field, w: Found)
    requires LabelledField(depth, f) && !w.matching
    ensures WalkField(h, c, path, depth, f, w) == w
    decreases f, 0
  {
    hide FindField, WalkFields;
    var p := Push(path, f.name, w);
    if f.fieldValue.Record? && depth < MAX_LABEL_DEPTH {
      StoppedWalkChangesNothing(h, c, p.path, depth + 1, f.fieldValue.fields, w);
    }
    StoppedFindsNothing(h, c, p.path, f.fieldValue, w);
  }

  lemma {:induction false} StoppedWalkChangesNothing(h: Sha256, c: Config, path: seq<Byte>, depth: nat, fs: seq<Field>, w: Found)
    requires Labelled(depth, fs) && !w.matching
    ensures WalkFields(h, c, path, depth, fs, w) == w
    decreases fs
  {
    hide WalkField, LabelledField;
    if |fs| > 0 {
      StoppedFieldChangesNothing(h, c, path, depth, fs[0], w);
      StoppedWalkChangesNothing(h, c, path, depth, fs[1..], w);
    }
  }

  /** A label that does not fit: no look-up of its field fits. */
  lemma OverflowingLooks(path: seq<Byte>, depth: nat, f: Field)
    requires LabelledField(depth, f) && |Extended(path, f.name)| >= MAX_LABEL_PATH_LEN
    ensures Fitting(LooksField(path, depth, f)) == [] && !AllFit(LooksField(path, depth, f))
  {
    hide Extended, Under;
    FieldLooksContinue(path, depth, f, 0);
  }

  lemma {:induction false} FieldIsLooks(h: Sha256, c: Config, path: seq<Byte>, depth: nat, f: Field, w: Found)
    requires LabelledField(depth, f) && w.matching
    ensures
      var ls := LooksField(path, depth, f);
      WalkField(h, c, path, depth, f, w) == Stop(FindAll(h, c, w, Fitting(ls)), AllFit(ls))
    decreases f, 0
  {
    hide FindField, FindAll, Looks, WalkFields, AllFit, Fitting, Extended, Labelled;
    LabelIsPresent(depth, f);
    var p := Extended(path, f.name);
    var under, look := Under(path, depth, f), Look(p, f.fieldValue);
    var descends := f.fieldValue.Record? && depth < MAX_LABEL_DEPTH;
    if |p| >= MAX_LABEL_PATH_LEN {
      var w1 := Stop(w, false);
      OverflowingLooks(path, depth, f);
      NothingFound(h, c, w);
      if descends {
        StoppedWalkChangesNothing(h, c, path, depth + 1, f.fieldValue.fields, w1);
      }
      StoppedFindsNothing(h, c, path, f.fieldValue, w1);
    } else {
      NothingFits();
      OneFits(look);
      FittingConcat(under, [look]);
      if descends {
        WalkIsLooks(h, c, p, depth + 1, f.fieldValue.fields, w);
      } else {
        NothingFound(h, c, w);
      }
      if AllFit(under) {
        FittingAll(under);
        LooksStep(h, c, w, under, look);
      } else {
        var w1 := FindAll(h, c, w, Fitting(under));
        StoppedFindsNothing(h, c, p, f.fieldValue, Stop(w1, false));
      }
    }
  }

  lemma NothingFits()
    ensures AllFit([]) && Fitting([]) == []
  {
  }

  lemma OneFits(l: Look)
    requires |l.path| < MAX_LABEL_PATH_LEN
    ensures AllFit([l]) && Fitting([l]) == [l]
  {
    assert [l][1..] == [];
  }

  /** On well-labelled fields the walk is its look-ups, in order, up to the first path that does not fit. */
  lemma {:induction false} WalkIsLooks(h: Sha256, c: Config, path: seq<Byte>, depth: nat, fs: seq<Field>, w: Found)
    requires Labelled(depth, fs) && w.matching
    ensures
      var ls := Looks(path, depth, fs);
      WalkFields(h, c, path, depth, fs, w) == Stop(FindAll(h, c, w, Fitting(ls)), AllFit(ls))
    decreases fs
  {
    hide FindField, FindAll, WalkField, LooksField, LabelledField, AllFit, Fitting;
    if |fs| == 0 {
      NothingFits();
      NothingFound(h, c, w);
    } else {
      var first, rest := LooksField(path, depth, fs[0]), Looks(path, depth, fs[1..]);
      var w1 := FindAll(h, c, w, Fitting(first));
      FieldIsLooks(h, c, path, depth, fs[0], w);
      FindAllKeepsMatching(h, c, w, Fitting(first));
      FittingConcat(first, rest);
      if AllFit(first) {
        FittingAll(first);
        WalkIsLooks(h, c, path, depth, fs[1..], w1);
        FindAllConcat(h, c, w, first, Fitting(rest));
      } else {
        StoppedWalkChangesNothing(h, c, path, depth, fs[1..], Stop(w1, false));
      }
    }
  }

  // ------------------------------------------------------------------ what the look-ups find

  /** The values looked up under one path. */
  function ValuesAt(ls: seq<Look>, p: seq<Byte>): seq<Value>
  {
    if |ls| == 0 then []
    else
      var k := |ls| - 1;
      ValuesAt(ls[..k], p) + if ls[k].path == p then [ls[k].value] else []
  }

  function Last(h: Sha256, ts: seq<Str>): Option<Digest> { if |ts| == 0 then None else Some(h(ts[|ts| - 1])) }

  function StringsAt(ls: seq<Look>, p: seq<Byte>): seq<Str> { Strings(ValuesAt(ls, p)) }
  function TextsAt(ls: seq<Look>, p: Option<Str>): seq<Str> { if p.None? then [] else Texts(ValuesAt(ls, p.value)) }

  /** The last match of each path, and whether some path matched twice. */
  predicate Summarises(h: Sha256, c: Config, w: Found, owners: seq<Str>, amounts: seq<Str>, admins: seq<Str>, names: seq<Str>)
  {
    w.matching && w.owner == Last(h, owners) && w.amount == Last(h, amounts) && w.admin == Last(h, admins) && w.instrument == Last(h, names) &&
    (w.unreadable <==> |owners| > 1 || |amounts| > 1 || |admins| > 1 || |names| > 1)
  }

  lemma PartiesAndNumbers(v: Value)
    ensures (match v case Party(s) => [s] case Numeric(s) => [s] case _ => []) == if PartyOrNumeric(v).Some? then [PartyOrNumeric(v).value] else []
  {
  }

  /** One look-up adds its string to one list at most. */
  lemma OneLook(ls: seq<Look>, l: Look, p: seq<Byte>)
    ensures StringsAt(ls + [l], p) == StringsAt(ls, p) +
      (if l.path == p && PartyOrNumeric(l.value).Some? then [PartyOrNumeric(l.value).value] else [])
    ensures Texts(ValuesAt(ls + [l], p)) == Texts(ValuesAt(ls, p)) + (if l.path == p && l.value.Text? then [l.value.text] else [])
  {
    hide PartyOrNumeric;
    PartiesAndNumbers(l.value);
    assert (ls + [l])[..|ls|] == ls;
    var vs := ValuesAt(ls, p);
    if l.path == p {
      assert (vs + [l.value])[..|vs|] == vs;
    } else {
      assert vs + [] == vs;
      assert Strings(vs) + [] == Strings(vs) && Texts(vs) + [] == Texts(vs);
    }
  }

  /** FindField against the four lists. */
  lemma FindSummarises(h: Sha256, c: Config, w: Found, l: Look, owners: seq<Str>, amounts: seq<Str>, admins: seq<Str>, names: seq<Str>)
    requires DistinctPaths(c) && Summarises(h, c, w, owners, amounts, admins, names)
    ensures
      var s := PartyOrNumeric(l.value);
      Summarises(h, c, FindField(h, c, l.path, l.value, w),
                 owners + (if l.path == c.ownerPath && s.Some? then [s.value] else []),
                 amounts + (if l.path == c.amountPath && s.Some? then [s.value] else []),
                 admins + (if l.path == c.adminPath && s.Some? then [s.value] else []),
                 names + (if c.idPath == Some(l.path) && l.value.Text? then [l.value.text] else []))
  {
    if !l.value.Text? && PartyOrNumeric(l.value).None? {
      assert FindField(h, c, l.path, l.value, w) == w;
    }
  }

  lemma {:induction false} FindAllSummarises(h: Sha256, c: Config, ls: seq<Look>)
    requires DistinctPaths(c)
    ensures Summarises(h, c, FindAll(h, c, NOTHING, ls), StringsAt(ls, c.ownerPath), StringsAt(ls, c.amountPath), StringsAt(ls, c.adminPath),
                       TextsAt(ls, c.idPath))
    decreases |ls|
  {
    hide FindField, DistinctPaths, Summarises, StringsAt, PartyOrNumeric, ValuesAt, Texts;
    if |ls| == 0 {
      EmptySummary(h, c);
    } else {
      var k := |ls| - 1;
      var l := ls[k];
      FindAllSummarises(h, c, ls[..k]);
      assert ls == ls[..k] + [l];
      OneLook(ls[..k], l, c.ownerPath);
      OneLook(ls[..k], l, c.amountPath);
      OneLook(ls[..k], l, c.adminPath);
      if c.idPath.Some? {
        OneLook(ls[..k], l, c.idPath.value);
      } else {
        assert TextsAt(ls[..k], c.idPath) + [] == TextsAt(ls, c.idPath);
      }
      FindSummarises(h, c, FindAll(h, c, NOTHING, ls[..k]), l, StringsAt(ls[..k], c.ownerPath), StringsAt(ls[..k], c.amountPath),
                     StringsAt(ls[..k], c.adminPath), TextsAt(ls[..k], c.idPath));
    }
  }

  lemma EmptySummary(h: Sha256, c: Config)
    ensures Summarises(h, c, FindAll(h, c, NOTHING, []), StringsAt([], c.ownerPath), StringsAt([], c.amountPath), StringsAt([], c.adminPath),
                       TextsAt([], c.idPath))
  {
  }

  // ------------------------------------------------------------------ look-ups are the lookup

  lemma {:induction false} ValuesAtConcat(a: seq<Look>, b: seq<Look>, p: seq<Byte>)
    ensures ValuesAt(a + b, p) == ValuesAt(a, p) + ValuesAt(b, p)
    decreases |b|
  {
    if |b| == 0 {
      assert a + b == a;
    } else {
      var k := |b| - 1;
      assert (a + b)[..|a + b| - 1] == a + b[..k];
      ValuesAtConcat(a, b[..k], p);
    }
  }

  lemma {:induction false} NoValues(ls: seq<Look>, p: seq<Byte>)
    requires forall i :: 0 <= i < |ls| ==> ls[i].path != p
    ensures ValuesAt(ls, p) == []
    decreases |ls|
  {
    if |ls| > 0 {
      NoValues(ls[..|ls| - 1], p);
    }
  }

  lemma OneValue(l: Look)
    ensures ValuesAt([l], l.path) == [l.value]
  {
    assert [l][..0] == [];
  }

  lemma {:induction false} FieldLooksAre(path: seq<Byte>, depth: nat, f: Field, names: seq<seq<Byte>>)
    requires WellLabelledField(depth, f) && GoodLabels(names) && 0 < |names| && depth + |names| <= 7
    ensures ValuesAt(LooksField(path, depth, f), Target(path, names)) == AtField(f, names)
    decreases f, 0
  {
    hide Looks, GoodLabel, Extended, Continues, ValuesAt, At;
    var p1, target := Extended(path, f.name), Target(path, names);
    var under, self := Under(path, depth, f), Look(p1, f.fieldValue);
    GoodFieldIsLabelled(depth, f);
    GoodLabelParts(f.name);
    GoodLabelParts(names[0]);
    ExtendedIsLonger(path, f.name);
    ExtendedIsLonger(path, names[0]);
    ValuesAtConcat(under, [self], target);
    if f.name != names[0] {
      TargetContinues(Extended(path, names[0]), names[1..]);
      forall i | 0 <= i < |LooksField(path, depth, f)|
        ensures LooksField(path, depth, f)[i].path != target
      {
        FieldLooksContinue(path, depth, f, i);
        if LooksField(path, depth, f)[i].path == target {
          LabelsSeparate(path, f.name, names[0], target);
        }
      }
      NoValues(LooksField(path, depth, f), target);
    } else if |names| == 1 {
      forall i | 0 <= i < |under|
        ensures under[i].path != target
      {
        FieldLooksContinue(path, depth, f, i);
      }
      NoValues(under, target);
      OneValue(self);
    } else {
      TargetContinues(p1, names[1..]);
      NoValues([self], target);
      if f.fieldValue.Record? {
        LooksAre(p1, depth + 1, f.fieldValue.fields, names[1..]);
      } else {
        NoValues([], target);
      }
    }
  }

  /** The values looked up under a path are those its labels lead to, in order. */
  lemma {:induction false} LooksAre(path: seq<Byte>, depth: nat, fs: seq<Field>, names: seq<seq<Byte>>)
    requires WellLabelled(depth, fs) && GoodLabels(names) && 0 < |names| && depth + |names| <= 7
    ensures ValuesAt(Looks(path, depth, fs), Target(path, names)) == At(fs, names)
    decreases fs
  {
    hide LooksField, WellLabelledField, GoodLabel, ValuesAt, AtField, Target;
    if |fs| == 0 {
      NoValues([], Target(path, names));
    } else {
      FieldLooksAre(path, depth, fs[0], names);
      LooksAre(path, depth, fs[1..], names);
      ValuesAtConcat(LooksField(path, depth, fs[0]), Looks(path, depth, fs[1..]), Target(path, names));
    }
  }

  lemma {:induction false} TargetIsJoin(p: seq<Byte>, names: seq<seq<Byte>>)
    requires GoodLabels(names)
    ensures |p| == 0 ==> Target(p, names) == Join(names)
    ensures |p| > 0 && |names| > 0 ==> Target(p, names) == p + [DOT] + Join(names)
    decreases |names|
  {
    if |names| > 0 {
      var p1 := Extended(p, names[0]);
      assert GoodLabel(names[0]);
      if |names| == 1 {
        assert Target(p, names) == p1;
      } else {
        TargetIsJoin(p1, names[1..]);
        assert Target(p, names) == p1 + [DOT] + Join(names[1..]);
        assert Join(names) == names[0] + [DOT] + Join(names[1..]);
      }
    }
  }

  lemma PathIsTarget(p: Str)
    ensures GoodPath(p) ==> Target([], Split(p)) == p && GoodLabels(Split(p)) && |Split(p)| <= 6
  {
    hide Target, GoodLabel;
    if GoodPath(p) {
      JoinSplit(p);
      TargetIsJoin([], Split(p));
    }
  }

  lemma LooksAtPath(v: Value, p: Str)
    requires GoodPath(p) && WellLabelled(1, FieldsOf(v))
    ensures ValuesAt(Looks([], 1, FieldsOf(v)), p) == At(FieldsOf(v), Split(p))
  {
    hide Looks, ValuesAt, At, GoodPath, WellLabelled;
    PathIsTarget(p);
    LooksAre([], 1, FieldsOf(v), Split(p));
  }

  // ------------------------------------------------------------------ the theorems

  /** The look-ups made before the first path that does not fit. */
  function LooksBefore(v: Value): seq<Look> { Fitting(Looks([], 1, FieldsOf(v))) }

  /** Among some look-ups, each configured path has exactly one match of its kind. */
  predicate ResolvesIn(c: Config, ls: seq<Look>)
  {
    |StringsAt(ls, c.ownerPath)| == 1 && |StringsAt(ls, c.amountPath)| == 1 && |StringsAt(ls, c.adminPath)| == 1 &&
    (c.idPath.Some? ==> |TextsAt(ls, c.idPath)| == 1)
  }

  function HoldingIn(h: Sha256, c: Config, ls: seq<Look>): Note
    requires ResolvesIn(c, ls)
  {
    Note(Holding(h(StringsAt(ls, c.ownerPath)[0]), h(StringsAt(ls, c.amountPath)[0]), h(StringsAt(ls, c.adminPath)[0])),
         if c.idPath.Some? then Some(h(TextsAt(ls, c.idPath)[0])) else None)
  }

  /** For every well-labelled argument, whatever its paths: a holding is reported exactly when each
      configured path has one match among the look-ups before the first overflow, and it carries those
      matches' digests. What follows the overflow, even a second match, is not looked at. */
  lemma HoldingIsWhatWasLookedUp(h: Sha256, c: Config, v: Value)
    requires DistinctPaths(c) && Labelled(1, FieldsOf(v))
    ensures
      var ls := LooksBefore(v);
      CollectCreate(h, c, v) == if ResolvesIn(c, ls) then ReportEvent(HoldingIn(h, c, ls)) else GiveUpEvent
  {
    hide Looks, Fitting, AllFit, FindAll, WalkFields, Labelled, DistinctPaths, StringsAt, TextsAt;
    FindAllSummarises(h, c, LooksBefore(v));
    if v.Record? {
      WalkIsLooks(h, c, [], 1, v.fields, NOTHING);
    } else {
      NothingFound(h, c, NOTHING);
      NoFieldsNoLooks();
    }
    assert c.idPath.None? ==> TextsAt(LooksBefore(v), c.idPath) == [] by { NoTexts(LooksBefore(v)); }
  }

  lemma NoTexts(ls: seq<Look>)
    ensures TextsAt(ls, None) == []
  {
  }

  lemma NoFieldsNoLooks()
    ensures Looks([], 1, []) == [] && Fitting([]) == []
  {
  }

  /** Each configured path leads to exactly one leaf of its kind. */
  predicate Resolves(c: Config, v: Value)
  {
    |LeavesAt(v, c.ownerPath)| == 1 && |LeavesAt(v, c.amountPath)| == 1 && |LeavesAt(v, c.adminPath)| == 1 &&
    (c.idPath.Some? ==> |TextLeavesAt(v, c.idPath.value)| == 1)
  }

  function HoldingAt(h: Sha256, c: Config, v: Value): Note
    requires Resolves(c, v)
  {
    Note(Holding(h(LeavesAt(v, c.ownerPath)[0]), h(LeavesAt(v, c.amountPath)[0]), h(LeavesAt(v, c.adminPath)[0])),
         if c.idPath.Some? then Some(h(TextLeavesAt(v, c.idPath.value)[0])) else None)
  }

  /** The look-ups of all the fields find what the configured paths lead to. */
  lemma LooksResolve(h: Sha256, c: Config, v: Value)
    requires GoodConfig(c) && WellLabelled(1, FieldsOf(v))
    ensures
      var ls := Looks([], 1, FieldsOf(v));
      (ResolvesIn(c, ls) <==> Resolves(c, v)) && (Resolves(c, v) ==> HoldingIn(h, c, ls) == HoldingAt(h, c, v))
  {
    hide Looks, ValuesAt, At, GoodPath, WellLabelled, Strings, Texts, Split;
    LooksAtPath(v, c.ownerPath);
    LooksAtPath(v, c.amountPath);
    LooksAtPath(v, c.adminPath);
    if c.idPath.Some? {
      LooksAtPath(v, c.idPath.value);
    }
  }

  /** When every path fits, a holding is reported exactly when every configured path resolves, and with
      those leaves' digests. */
  lemma HoldingIsLookup(h: Sha256, c: Config, v: Value)
    requires GoodConfig(c) && WellLabelled(1, FieldsOf(v)) && AllFit(Looks([], 1, FieldsOf(v)))
    ensures CollectCreate(h, c, v) == if Resolves(c, v) then ReportEvent(HoldingAt(h, c, v)) else GiveUpEvent
  {
    hide Resolves, ResolvesIn, HoldingAt, HoldingIn, GoodPath, WellLabelled, Labelled, CollectCreate, Looks, Fitting, AllFit;
    GoodLabelsAreLabels(1, FieldsOf(v));
    FittingAll(Looks([], 1, FieldsOf(v)));
    HoldingIsWhatWasLookedUp(h, c, v);
    LooksResolve(h, c, v);
  }

  lemma {:induction false} LooksConcat(path: seq<Byte>, depth: nat, a: seq<Field>, b: seq<Field>)
    ensures Looks(path, depth, a + b) == Looks(path, depth, a) + Looks(path, depth, b)
    decreases |a|
  {
    hide LooksField;
    if |a| == 0 {
      assert a + b == b;
    } else {
      assert (a + b)[1..] == a[1..] + b;
      LooksConcat(path, depth, a[1..], b);
    }
  }

  /** Fields that fit, and then fields of which already the first look-up does not, at whatever depth: the
      holding is unreadable if and only if the first ones do not resolve. */
  lemma OverflowIsUnreadableIff(h: Sha256, c: Config, id: Option<Identifier>, fs: seq<Field>, gs: seq<Field>)
    requires GoodConfig(c) && WellLabelled(1, fs) && WellLabelled(1, gs) && AllFit(Looks([], 1, fs))
    requires Looks([], 1, gs) != [] && |Looks([], 1, gs)[0].path| >= MAX_LABEL_PATH_LEN
    ensures CollectCreate(h, c, Record(id, fs + gs)) == if Resolves(c, Record(id, fs)) then ReportEvent(HoldingAt(h, c, Record(id, fs))) else GiveUpEvent
  {
    hide Resolves, ResolvesIn, HoldingAt, HoldingIn, GoodPath, CollectCreate, Looks, WellLabelledField, LabelledField;
    GoodLabelsAreLabels(1, fs + gs);
    var before := Looks([], 1, fs);
    LooksConcat([], 1, fs, gs);
    FittingConcat(before, Looks([], 1, gs));
    assert before + [] == before;
    HoldingIsWhatWasLookedUp(h, c, Record(id, fs + gs));
    LooksResolve(h, c, Record(id, fs));
  }

  // ------------------------------------------------------------------ arguments with bad labels

  /** Some field that is visited has a label that is too long or holds a NUL. */
  ghost predicate HasBadLabel(depth: nat, fs: seq<Field>)
    decreases fs
  {
    exists i :: 0 <= i < |fs| && HasBadLabelIn(depth, fs[i])
  }

  ghost predicate HasBadLabelIn(depth: nat, f: Field)
    decreases f
  {
    |f.name| >= 64 || 0 in f.name || (f.fieldValue.Record? && depth < 6 && HasBadLabel(depth + 1, f.fieldValue.fields))
  }

  /** Some field that is visited has no label. */
  ghost predicate HasNoLabel(depth: nat, fs: seq<Field>)
    decreases fs
  {
    exists i :: 0 <= i < |fs| && HasNoLabelIn(depth, fs[i])
  }

  ghost predicate HasNoLabelIn(depth: nat, f: Field)
    decreases f
  {
    |f.name| == 0 || (f.fieldValue.Record? && depth < 6 && HasNoLabel(depth + 1, f.fieldValue.fields))
  }

  /** Every path stays within the buffer; a label that is absent or bad does not extend it. */
  ghost predicate Roomy(length: nat, depth: nat, fs: seq<Field>)
    decreases fs
  {
    forall i :: 0 <= i < |fs| ==> RoomyField(length, depth, fs[i])
  }

  ghost predicate RoomyField(length: nat, depth: nat, f: Field)
    decreases f
  {
    var extended := if |f.name| == 0 || |f.name| >= 64 || 0 in f.name then length else length + (if length > 0 then 1 else 0) + |f.name|;
    extended < 64 && (f.fieldValue.Record? && depth < 6 ==> Roomy(extended, depth + 1, f.fieldValue.fields))
  }

  lemma PushEffects(path: seq<Byte>, segment: seq<Byte>, w: Found)
    ensures var p := Push(path, segment, w); w.unreadable ==> p.w.unreadable
    ensures var p := Push(path, segment, w); |segment| >= 64 || 0 in segment ==> p.w.unreadable
    ensures
      var p := Push(path, segment, w);
      var extended := if |segment| == 0 || |segment| >= 64 || 0 in segment then |path| else |path| + (if |path| > 0 then 1 else 0) + |segment|;
      extended < 64 ==> |p.path| == extended && p.w.matching == w.matching
  {
  }

  lemma FindKeepsUnreadable(h: Sha256, c: Config, path: seq<Byte>, v: Value, w: Found)
    ensures w.unreadable ==> FindField(h, c, path, v, w).unreadable
  {
  }

  /** One field: its label is pushed, the record in it walked, and the value looked up. */
  lemma FieldIs(h: Sha256, c: Config, path: seq<Byte>, depth: nat, f: Field, w: Found)
    ensures
      var p := Push(path, f.name, w);
      var inside := if f.fieldValue.Record? && depth < 6 then WalkFields(h, c, p.path, depth + 1, f.fieldValue.fields, p.w) else p.w;
      WalkField(h, c, path, depth, f, w) ==
        FindField(h, c, p.path, f.fieldValue, if |f.name| == 0 && inside.matching then Mark(inside) else inside)
  {
    hide FindField, Push, WalkFields;
  }

  /** What was marked unreadable stays so, and a bad label marks it. */
  lemma {:induction false} BadFieldMarks(h: Sha256, c: Config, path: seq<Byte>, depth: nat, f: Field, w: Found)
    requires w.unreadable || HasBadLabelIn(depth, f)
    ensures WalkField(h, c, path, depth, f, w).unreadable
    decreases f, 0
  {
    hide FindField, Push, WalkFields, HasBadLabel, WalkField;
    var p := Push(path, f.name, w);
    PushEffects(path, f.name, w);
    FieldIs(h, c, path, depth, f, w);
    var inside := p.w;
    if f.fieldValue.Record? && depth < 6 {
      inside := WalkFields(h, c, p.path, depth + 1, f.fieldValue.fields, p.w);
      BadLabelsMark(h, c, p.path, depth + 1, f.fieldValue.fields, p.w);
    }
    FindKeepsUnreadable(h, c, p.path, f.fieldValue, if |f.name| == 0 && inside.matching then Mark(inside) else inside);
  }

  lemma {:induction false} BadLabelsMark(h: Sha256, c: Config, path: seq<Byte>, depth: nat, fs: seq<Field>, w: Found)
    requires w.unreadable || HasBadLabel(depth, fs)
    ensures WalkFields(h, c, path, depth, fs, w).unreadable
    decreases fs
  {
    hide WalkField, HasBadLabelIn;
    if |fs| > 0 {
      if w.unreadable || HasBadLabelIn(depth, fs[0]) {
        BadFieldMarks(h, c, path, depth, fs[0], w);
      } else {
        var i :| 0 <= i < |fs| && HasBadLabelIn(depth, fs[i]);
        assert fs[1..][i - 1] == fs[i];
      }
      BadLabelsMark(h, c, path, depth, fs[1..], WalkField(h, c, path, depth, fs[0], w));
    }
  }

  /** While every path fits, the configuration is matched to the end, and an absent label marks the holding. */
  lemma {:induction false} NoLabelInMarks(h: Sha256, c: Config, path: seq<Byte>, depth: nat, f: Field, w: Found)
    requires w.matching && RoomyField(|path|, depth, f)
    ensures WalkField(h, c, path, depth, f, w).matching
    ensures HasNoLabelIn(depth, f) ==> WalkField(h, c, path, depth, f, w).unreadable
    decreases f, 0
  {
    hide FindField, Push, WalkFields, HasNoLabel, Roomy, WalkField;
    var p := Push(path, f.name, w);
    PushEffects(path, f.name, w);
    FieldIs(h, c, path, depth, f, w);
    var inside := p.w;
    if f.fieldValue.Record? && depth < 6 {
      inside := WalkFields(h, c, p.path, depth + 1, f.fieldValue.fields, p.w);
      NoLabelMarks(h, c, p.path, depth + 1, f.fieldValue.fields, p.w);
    }
    var w2 := if |f.name| == 0 && inside.matching then Mark(inside) else inside;
    FindKeepsUnreadable(h, c, p.path, f.fieldValue, w2);
    FindFieldKeepsMatching(h, c, p.path, f.fieldValue, w2);
  }

  lemma {:induction false} NoLabelMarks(h: Sha256, c: Config, path: seq<Byte>, depth: nat, fs: seq<Field>, w: Found)
    requires w.matching && Roomy(|path|, depth, fs)
    ensures WalkFields(h, c, path, depth, fs, w).matching
    ensures HasNoLabel(depth, fs) ==> WalkFields(h, c, path, depth, fs, w).unreadable
    decreases fs
  {
    hide WalkField, HasNoLabelIn, RoomyField;
    if |fs| > 0 {
      var w1 := WalkField(h, c, path, depth, fs[0], w);
      NoLabelInMarks(h, c, path, depth, fs[0], w);
      assert forall i :: 0 <= i < |fs| - 1 ==> fs[1..][i] == fs[i + 1];
      NoLabelMarks(h, c, path, depth, fs[1..], w1);
      if HasNoLabelIn(depth, fs[0]) {
        BadLabelsMark(h, c, path, depth, fs[1..], w1);
      } else if HasNoLabel(depth, fs) {
        var i :| 0 <= i < |fs| && HasNoLabelIn(depth, fs[i]);
        assert fs[1..][i - 1] == fs[i];
      }
    }
  }

  /** A label that is too long or holds a NUL, on any field that is visited, makes the holding unreadable,
      whatever else was found or overflowed; so does an absent one, as long as every path fits the buffer. */
  lemma BadLabelGivesUp(h: Sha256, c: Config, v: Value)
    requires HasBadLabel(1, FieldsOf(v)) || (HasNoLabel(1, FieldsOf(v)) && Roomy(0, 1, FieldsOf(v)))
    ensures CollectCreate(h, c, v) == GiveUpEvent
  {
    hide HasBadLabel, HasNoLabel, Roomy, WalkFields;
    NothingIsBad();
    if HasBadLabel(1, FieldsOf(v)) {
      BadLabelsMark(h, c, [], 1, FieldsOf(v), NOTHING);
    } else {
      NoLabelMarks(h, c, [], 1, FieldsOf(v), NOTHING);
    }
  }

  lemma NothingIsBad()
    ensures !HasBadLabel(1, []) && !HasNoLabel(1, [])
  {
  }
}
