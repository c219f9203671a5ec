/** Reading a holding out of a create's argument (pb_holding_parser.c): a walk over labelled records with
    one in-place path buffer. */
module HoldingWalk {
  import opened Bytes
  import opened CStrings
  import opened CanonicalValue
  import opened ValuesCheck
  import opened ValuesVerdict

  const MAX_LABEL_PATH_LEN: nat := 64
  const MAX_LABEL_DEPTH: nat := 6

  /** Where a template keeps its fields; idPath is absent when it names no instrument. */
  datatype Config = Config(ownerPath: Str, amountPath: Str, adminPath: Str, idPath: Option<Str>)

  // ------------------------------------------------------------------ specification of the walk

  /** matching: the configuration is still being matched. */
  datatype Found = Found(matching: bool, owner: Option<Digest>, amount: Option<Digest>, admin: Option<Digest>, instrument: Option<Digest>, unreadable: bool)

  const NOTHING: Found := Found(true, None, None, None, None, false)

  function Mark(w: Found): Found { w.(unreadable := true) }

  /** What a label does: nothing when absent, unreadable when too long or holding a NUL, and otherwise it
      extends the path if the buffer has room. */
  datatype Pushed = Pushed(path: seq<Byte>, w: Found)

  function Extended(path: seq<Byte>, segment: seq<Byte>): seq<Byte> { path + (if |path| > 0 then [DOT] else []) + segment }

  function Push(path: seq<Byte>, segment: seq<Byte>, w: Found): Pushed
  {
    if |segment| == 0 then Pushed(path, w)
    else if |segment| >= DEFAULT_DECODE_BUFFER_SIZE || 0 in segment then Pushed(path, Mark(w))
    else if |Extended(path, segment)| >= MAX_LABEL_PATH_LEN then Pushed(path, w.(matching := false))
    else Pushed(Extended(path, segment), w)
  }

  /** A party or a number. */
  function PartyOrNumeric(v: Value): Option<Str>
  {
    match v case Party(s) => Some(s) case Numeric(s) => Some(s) case _ => None
  }

  function FindField(h: Sha256, c: Config, path: seq<Byte>, v: Value, w: Found): Found
  {
    if !w.matching then w
    else if v.Text? then
      if c.idPath == Some(path) then w.(unreadable := w.unreadable || w.instrument.Some?, instrument := Some(h(v.text))) else w
    else if PartyOrNumeric(v).None? then w
    else
      var d := Some(h(PartyOrNumeric(v).value));
      if path == c.ownerPath then w.(unreadable := w.unreadable || w.owner.Some?, owner := d)
      else if path == c.amountPath then w.(unreadable := w.unreadable || w.amount.Some?, amount := d)
      else if path == c.adminPath then w.(unreadable := w.unreadable || w.admin.Some?, admin := d)
      else w
  }

  /** decode_record_field: the label, the value behind it, then the look-up under the extended path. */
  function WalkField(h: Sha256, c: Config, path: seq<Byte>, depth: nat, f: Field, w: Found): Found
    decreases f, 0
  {
    var p := Push(path, f.name, w);
    var w1 := WalkValue(h, c, p.path, depth, f.fieldValue, p.w);
    var w2 := if |f.name| == 0 && w1.matching then Mark(w1) else w1;
    FindField(h, c, p.path, f.fieldValue, w2)
  }

  /** Only records are descended, six deep. */
  function WalkValue(h: Sha256, c: Config, path: seq<Byte>, depth: nat, v: Value, w: Found): Found
    decreases v, 1
  {
    if v.Record? && depth < MAX_LABEL_DEPTH then WalkFields(h, c, path, depth + 1, v.fields, w) else w
  }

  function WalkFields(h: Sha256, c: Config, path: seq<Byte>, depth: nat, fs: seq<Field>, w: Found): Found
    decreases fs
  {
    if |fs| == 0 then w else WalkFields(h, c, path, depth, fs[1..], WalkField(h, c, path, depth, fs[0], w))
  }

  /** What the create reports; Trouble is values_report_unreadable_holding. */
  function ReportOf(c: Config, w: Found): (e: Event)
    ensures e.ReportEvent? || e.GiveUpEvent?
  {
    if !w.unreadable && w.owner.Some? && w.amount.Some? && w.admin.Some? && (c.idPath.Some? ==> w.instrument.Some?) then
      ReportEvent(Note(Holding(w.owner.value, w.amount.value, w.admin.value), if c.idPath.Some? then w.instrument else None))
    else GiveUpEvent
  }

  function CollectCreate(h: Sha256, c: Config, argument: Value): (e: Event)
    ensures e.ReportEvent? || e.GiveUpEvent?
  {
    ReportOf(c, WalkValue(h, c, [], 0, argument, NOTHING))
  }

  // ------------------------------------------------------------------ the walk over the module's state

  class Walker {
    const h: Sha256
    const path: array<Byte>
    var depth: nat
    var cfg: Option<Config>
    var owner: Option<Digest>
    var amount: Option<Digest>
    var admin: Option<Digest>
    var instrument: Option<Digest>
    var unreadable: bool
    /** Some level did not fit on the stack. */
    ghost var stackFull: bool

    /** The buffer holds a terminated string. */
    ghost predicate Valid()
      reads path
    {
      path.Length == 64 && |CString(path[..])| < 64
    }

    ghost function Path(): seq<Byte>
      reads path
    {
      CString(path[..])
    }

    ghost function State(): Found
      reads `cfg, `owner, `amount, `admin, `instrument, `unreadable
    {
      Found(cfg.Some?, owner, amount, admin, instrument, unreadable)
    }

    /** Nothing but an overflow takes the configuration away. */
    ghost predicate Matches(c: Config)
      reads `cfg
    {
      cfg == None || cfg == Some(c)
    }

    constructor (h: Sha256)
      ensures Valid() && this.h == h && fresh(path)
    {
      this.h := h;
      path := new Byte[64](_ => 0);
      depth, cfg, unreadable := 0, None, false;
      owner, amount, admin, instrument, stackFull := None, None, None, None, false;
      new;
      CStringIs(path[..], 0);
    }

    /** path_push. */
    method PathPush(segment: seq<Byte>)
      requires Valid() && 0 < |segment| && 0 !in segment
      modifies `cfg, path
      ensures Valid()
      ensures
        if |Extended(old(Path()), segment)| >= MAX_LABEL_PATH_LEN then cfg == None && Path() == old(Path())
        else cfg == old(cfg) && Path() == Extended(old(Path()), segment)
    {
      var len := StrLen(path);
      var add := |segment|;
      if len + (if len > 0 then 1 else 0) + add >= MAX_LABEL_PATH_LEN {
        cfg := None;
        return;
      }
      ghost var before := Path();
      if len > 0 {
        path[len] := DOT;
        len := len + 1;
      }
      assert path[..len] == before + (if |before| > 0 then [DOT] else []);
      WriteBytes(len, segment);
      assert path[..len + add] == Extended(before, segment);
      CStringIs(path[..], len + add);
    }

    /** memmove of a string and its terminator. */
    method WriteBytes(at: nat, segment: seq<Byte>)
      requires path.Length == 64 && at + |segment| < 64
      modifies path
      ensures path[..at] == old(path[..at]) && path[at..at + |segment|] == segment && path[at + |segment|] == 0
    {
      for i := 0 to |segment|
        invariant path[..at] == old(path[..at])
        invariant forall j :: 0 <= j < i ==> path[at + j] == segment[j]
      {
        path[at + i] := segment[i];
      }
      path[at + |segment|] := 0;
    }

    /** decode_label, for a label that is present. */
    method DecodeLabel(segment: seq<Byte>)
      requires Valid() && |segment| > 0
      modifies `cfg, `unreadable, path
      ensures Valid() && Pushed(Path(), State()) == Push(old(Path()), segment, old(State())) && (cfg == None || cfg == old(cfg))
    {
      if |segment| >= DEFAULT_DECODE_BUFFER_SIZE {
        unreadable := true;
        return;
      }
      if 0 in segment {
        unreadable := true;
        return;
      }
      PathPush(segment);
    }

    method PathIs(configured: Str) returns (b: bool)
      requires Valid()
      ensures b == (Path() == configured)
    {
      var n := StrLen(path);
      b := path[..n] == configured;
    }

    method FindHoldingField(ghost c: Config, v: Value)
      requires Valid() && Matches(c)
      modifies `owner, `amount, `admin, `instrument, `unreadable
      ensures State() == FindField(h, c, Path(), v, old(State()))
    {
      if cfg == None {
        return;
      }
      if v.Text? {
        if cfg.value.idPath.Some? {
          var same := PathIs(cfg.value.idPath.value);
          if same {
            unreadable := unreadable || instrument.Some?;
            instrument := Some(h(v.text));
          }
        }
        return;
      }
      var text := PartyOrNumeric(v);
      if text == None {
        return;
      }
      var isOwner := PathIs(cfg.value.ownerPath);
      var isAmount := PathIs(cfg.value.amountPath);
      var isAdmin := PathIs(cfg.value.adminPath);
      if isOwner {
        unreadable, owner := unreadable || owner.Some?, Some(h(text.value));
      } else if isAmount {
        unreadable, amount := unreadable || amount.Some?, Some(h(text.value));
      } else if isAdmin {
        unreadable, admin := unreadable || admin.Some?, Some(h(text.value));
      }
    }

    method StackHasRoom() returns (room: bool)
      modifies `stackFull
      ensures stackFull == (old(stackFull) || !room)
    {
      room := *;
      stackFull := stackFull || !room;
    }

    /** One field; whatever it does, the path is afterwards what it was before. */
    method DecodeRecordField(ghost c: Config, f: Field) returns (ok: bool)
      requires Valid() && Matches(c) && depth <= 6
      modifies this, path
      ensures Valid() && Matches(c) && depth == old(depth)
      ensures stackFull == (old(stackFull) || !ok)
      ensures ok ==> Path() == old(Path()) && State() == WalkField(h, c, old(Path()), old(depth), f, old(State()))
      decreases f, 0
    {
      hide FindField, Push, CString, WalkValue, WalkFields;
      var parent := StrLen(path);
      ghost var before := Path();
      var labelled := |f.name| > 0;
      if labelled {
        DecodeLabel(f.name);
      }
      PushKeepsParent(before, f.name, old(State()));
      ok := DecodeValue(c, f.fieldValue);
      if !ok {
        return;
      }
      if !labelled && cfg != None {
        unreadable := true;
      }
      FindHoldingField(c, f.fieldValue);
      CutAt(path, parent);
    }

    /** decode_value: anything but a record is a leaf. */
    method DecodeValue(ghost c: Config, v: Value) returns (ok: bool)
      requires Valid() && Matches(c) && depth <= 6
      modifies this, path
      ensures Valid() && Matches(c) && depth == old(depth)
      ensures stackFull == (old(stackFull) || !ok)
      ensures ok ==> Path() == old(Path()) && State() == WalkValue(h, c, old(Path()), old(depth), v, old(State()))
      decreases v, 1
    {
      hide CString, WalkFields, WalkField, Walker.Valid, Walker.Matches, Walker.State, Walker.Path;
      if !v.Record? || depth >= MAX_LABEL_DEPTH {
        return true;
      }
      ok := OpenRecord(c, v.fields);
    }

    /** One level deeper; a level that does not fit on the stack fails the parse. */
    method OpenRecord(ghost c: Config, fs: seq<Field>) returns (ok: bool)
      requires Valid() && Matches(c) && depth < 6
      modifies this, path
      ensures Valid() && Matches(c) && depth == old(depth)
      ensures stackFull == (old(stackFull) || !ok)
      ensures ok ==> Path() == old(Path()) && State() == WalkFields(h, c, old(Path()), old(depth) + 1, fs, old(State()))
      decreases fs, 1
    {
      hide CString, WalkFields, WalkField, Walker.Valid, Walker.Matches, Walker.State, Walker.Path;
      ok := StackHasRoom();
      if ok {
        depth := depth + 1;
        ok := DecodeRecord(c, fs);
        depth := depth - 1;
      }
    }

    method DecodeRecord(ghost c: Config, fs: seq<Field>) returns (ok: bool)
      requires Valid() && Matches(c) && depth <= 6
      modifies this, path
      ensures Valid() && Matches(c) && depth == old(depth)
      ensures stackFull == (old(stackFull) || !ok)
      ensures ok ==> Path() == old(Path()) && State() == WalkFields(h, c, old(Path()), old(depth), fs, old(State()))
      decreases fs, 0
    {
      hide CString, WalkField, WalkValue, FindField, Push;
      ghost var target := WalkFields(h, c, Path(), depth, fs, State());
      assert fs[0..] == fs;
      for i := 0 to |fs|
        invariant Valid() && Matches(c) && depth == old(depth) && Path() == old(Path()) && stackFull == old(stackFull)
        invariant WalkFields(h, c, Path(), depth, fs[i..], State()) == target
      {
        assert fs[i..][0] == fs[i] && fs[i..][1..] == fs[i + 1..];
        ok := DecodeRecordField(c, fs[i]);
        if !ok {
          return;
        }
      }
      ok := true;
    }

    method Start(c: Config)
      requires Valid()
      modifies this, path
      ensures Valid() && cfg == Some(c) && depth == 0 && Path() == [] && State() == NOTHING && stackFull == old(stackFull)
    {
      cfg, depth, unreadable := Some(c), 0, false;
      path[0] := 0;
      CStringIs(path[..], 0);
      owner, amount, admin, instrument := None, None, None, None;
    }

    /** What to report when the create closes. */
    method Close(c: Config) returns (report: Event)
      ensures report == ReportOf(c, State())
    {
      var named := c.idPath.Some?;
      if !unreadable && owner.Some? && amount.Some? && admin.Some? && (!named || instrument.Some?) {
        return ReportEvent(Note(Holding(owner.value, amount.value, admin.value), if named then instrument else None));
      }
      return GiveUpEvent;
    }

    /** The second pass of decode_create, for a template that holds value. */
    method CollectHolding(c: Config, argument: Value) returns (ok: bool, report: Event)
      requires Valid()
      modifies this, path
      ensures Valid() && cfg == None && stackFull == (old(stackFull) || !ok)
      ensures ok ==> report == CollectCreate(h, c, argument)
    {
      hide CString, WalkValue, ReportOf, Walker.Valid;
      Start(c);
      ok := DecodeValue(c, argument);
      report := Close(c);
      cfg := None;
    }
  }

  /** A push never touches what was there. */
  lemma PushKeepsParent(path: seq<Byte>, segment: seq<Byte>, w: Found)
    ensures |Push(path, segment, w).path| >= |path| && Push(path, segment, w).path[..|path|] == path
    ensures |segment| == 0 ==> Push(path, segment, w) == Pushed(path, w)
  {
  }
}
