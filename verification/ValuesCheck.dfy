/** The value check (node_values_check.c): the holdings the nodes write, the screen they are compared
    with, and the contracts the nodes acted on. */
module ValuesCheck {
  import opened Bytes

  const MAX_HOLDINGS: nat := 4
  const MAX_USED_CONTRACTS: nat := 32
  const USED_CONTRACT_LEN: nat := 8

  type Digest = seq<Byte>

  datatype Holding = Holding(owner: Digest, amount: Digest, admin: Digest)

  datatype ShownAs =
    | SHOWN_AS_OTHER
    | SHOWN_AS_SENDER
    | SHOWN_AS_RECEIVER
    | SHOWN_AS_AMOUNT
    | SHOWN_AS_ADMIN
    | SHOWN_AS_INSTRUMENT

  datatype Destination = DEST_NONE | DEST_SENDER | DEST_RECEIVER

  /** A resolved field of the matched display configuration; None for a null value or configuration. */
  datatype DisplayField = DisplayField(value: Option<Str>, shownAs: Option<ShownAs>)

  datatype Screen = Screen(
    kind: Destination, destination: Option<Digest>, amount: Option<Digest>, admin: Option<Digest>, sender: Option<Digest>,
    instrument: Option<Digest>)

  datatype Values = Values(
    holdings: seq<Holding>, instrument: Option<Digest>, used: Option<seq<Digest>>, screen: Option<Screen>, ok: bool)

  const NOTHING_SHOWN: Screen := Screen(DEST_NONE, None, None, None, None, None)

  const FRESH: Values := Values([], None, None, None, true)

  // ------------------------------------------------------------------ specification of the store

  function GiveUp(v: Values): Values { v.(ok := false) }

  function ContractDigest(h: Sha256, contractId: Str): Digest { h(contractId)[..USED_CONTRACT_LEN] }

  /** values_record_used_contract; room says whether the list could be allocated when there was none. */
  function RecordUsed(h: Sha256, v: Values, contractId: Option<Str>, room: bool): Values
  {
    if contractId.None? || !v.ok then v
    else if v.used.None? && !room then GiveUp(v)
    else
      var list := if v.used.None? then [] else v.used.value;
      var d := ContractDigest(h, contractId.value);
      if d in list then v.(used := Some(list))
      else if |list| >= MAX_USED_CONTRACTS then GiveUp(v.(used := Some(list)))
      else v.(used := Some(list + [d]))
  }

  function CheckDisclosed(h: Sha256, v: Values, contractId: Option<Str>): Values
  {
    if contractId.None? || !v.ok then v
    else if v.used.Some? && ContractDigest(h, contractId.value) in v.used.value then v
    else GiveUp(v)
  }

  function Report(v: Values, holding: Holding, instrument: Option<Digest>): Values
  {
    if |v.holdings| >= MAX_HOLDINGS then GiveUp(v)
    else
      var w := v.(holdings := v.holdings + [holding]);
      if instrument.None? then w
      else if v.instrument.None? then w.(instrument := instrument)
      else if v.instrument == instrument then w
      else GiveUp(w)
  }

  /** The last field shown as a given kind. */
  function LastShown(fields: seq<DisplayField>, kind: ShownAs): Option<Str>
  {
    if |fields| == 0 then None
    else
      var f := fields[|fields| - 1];
      if f.value.Some? && f.shownAs == Some(kind) then f.value else LastShown(fields[..|fields| - 1], kind)
  }

  function DigestOf(h: Sha256, text: Option<Str>): Option<Digest> { if text.None? then None else Some(h(text.value)) }

  /** Which of the shown accounts the value ends up with. */
  function ShownDestination(fields: seq<DisplayField>, kind: Destination): Option<Str>
  {
    match kind
    case DEST_NONE => None
    case DEST_SENDER => LastShown(fields, SHOWN_AS_SENDER)
    case DEST_RECEIVER => LastShown(fields, SHOWN_AS_RECEIVER)
  }

  function ScreenOf(h: Sha256, fields: seq<DisplayField>, kind: Destination, comparable: bool): Screen
  {
    Screen(kind, DigestOf(h, ShownDestination(fields, kind)),
           if comparable then DigestOf(h, LastShown(fields, SHOWN_AS_AMOUNT)) else None,
           DigestOf(h, LastShown(fields, SHOWN_AS_ADMIN)), DigestOf(h, LastShown(fields, SHOWN_AS_SENDER)),
           DigestOf(h, LastShown(fields, SHOWN_AS_INSTRUMENT)))
  }

  // ------------------------------------------------------------------ what a screen shows, by position

  predicate Carries(f: DisplayField, kind: ShownAs) { f.value.Some? && f.shownAs == Some(kind) }

  /** No later field with a value is shown as this kind. */
  predicate IsLast(fields: seq<DisplayField>, kind: ShownAs, i: nat)
  {
    i < |fields| && Carries(fields[i], kind) && forall j :: i < j < |fields| ==> !Carries(fields[j], kind)
  }

  /** text is the value of the last field shown as this kind, and absent exactly when no field is. */
  ghost predicate Shows(fields: seq<DisplayField>, kind: ShownAs, text: Option<Str>)
  {
    (text.None? <==> forall i :: 0 <= i < |fields| ==> !Carries(fields[i], kind)) &&
    (text.Some? ==> exists i :: 0 <= i < |fields| && IsLast(fields, kind, i) && fields[i].value == text) &&
    forall i :: 0 <= i < |fields| && IsLast(fields, kind, i) ==> text == fields[i].value
  }

  /** The same for the digest of that value. */
  ghost predicate ShowsDigest(h: Sha256, fields: seq<DisplayField>, kind: ShownAs, d: Option<Digest>)
  {
    (d.None? <==> forall i :: 0 <= i < |fields| ==> !Carries(fields[i], kind)) &&
    (d.Some? ==> exists i :: 0 <= i < |fields| && IsLast(fields, kind, i) && d == Some(h(fields[i].value.value))) &&
    forall i :: 0 <= i < |fields| && IsLast(fields, kind, i) ==> d == Some(h(fields[i].value.value))
  }

  /** What a screen binds: the value goes to the receiver shown, or back to the sender shown, or nowhere; the
      amount only when it is comparable. */
  ghost predicate ScreenFollows(h: Sha256, fields: seq<DisplayField>, kind: Destination, comparable: bool, s: Screen)
  {
    s.kind == kind &&
    (kind == DEST_RECEIVER ==> ShowsDigest(h, fields, SHOWN_AS_RECEIVER, s.destination)) &&
    (kind == DEST_SENDER ==> ShowsDigest(h, fields, SHOWN_AS_SENDER, s.destination)) && (kind == DEST_NONE ==> s.destination.None?) &&
    (if comparable then ShowsDigest(h, fields, SHOWN_AS_AMOUNT, s.amount) else s.amount.None?) &&
    ShowsDigest(h, fields, SHOWN_AS_ADMIN, s.admin) && ShowsDigest(h, fields, SHOWN_AS_SENDER, s.sender) &&
    ShowsDigest(h, fields, SHOWN_AS_INSTRUMENT, s.instrument)
  }

  /** Which field is the last one, with one more field. */
  lemma LastStep(fields: seq<DisplayField>, f: DisplayField, kind: ShownAs, i: nat)
    ensures IsLast(fields + [f], kind, i) <==> if Carries(f, kind) then i == |fields| else IsLast(fields, kind, i)
  {
    var more := fields + [f];
    assert more[|fields|] == f && forall j :: 0 <= j < |fields| ==> more[j] == fields[j];
  }

  lemma {:induction false} LastShownShows(fields: seq<DisplayField>, kind: ShownAs)
    ensures Shows(fields, kind, LastShown(fields, kind))
  {
    hide IsLast;
    if |fields| > 0 {
      var k := |fields| - 1;
      var before, f := fields[..k], fields[k];
      assert fields == before + [f];
      LastShownShows(before, kind);
      LastCarries(before, kind);
      assert forall i :: 0 <= i < k ==> before[i] == fields[i];
      forall i: nat
        ensures IsLast(fields, kind, i) <==> if Carries(f, kind) then i == k else IsLast(before, kind, i)
      {
        LastStep(before, f, kind, i);
      }
      if !Carries(f, kind) && LastShown(before, kind).Some? {
        var i :| 0 <= i < k && IsLast(before, kind, i) && before[i].value == LastShown(before, kind);
        assert IsLast(fields, kind, i) && fields[i] == before[i];
      }
    }
  }

  lemma DigestShows(h: Sha256, fields: seq<DisplayField>, kind: ShownAs, text: Option<Str>)
    requires Shows(fields, kind, text)
    ensures ShowsDigest(h, fields, kind, DigestOf(h, text))
  {
    hide IsLast;
    if text.Some? {
      var i :| 0 <= i < |fields| && IsLast(fields, kind, i) && fields[i].value == text;
    }
    LastCarries(fields, kind);
  }

  lemma LastCarries(fields: seq<DisplayField>, kind: ShownAs)
    ensures forall i: nat :: IsLast(fields, kind, i) ==> i < |fields| && Carries(fields[i], kind)
  {
  }

  /** What the screen of a display configuration is, field by field. */
  lemma ScreenMeaning(h: Sha256, fields: seq<DisplayField>, kind: Destination, comparable: bool)
    ensures ScreenFollows(h, fields, kind, comparable, ScreenOf(h, fields, kind, comparable))
  {
    hide LastShown, Shows, ShowsDigest, DigestOf;
    forall k: ShownAs
      ensures ShowsDigest(h, fields, k, DigestOf(h, LastShown(fields, k)))
    {
      LastShownShows(fields, k);
      DigestShows(h, fields, k, LastShown(fields, k));
    }
    NothingShown(h);
  }

  // ------------------------------------------------------------------ the verdict, declaratively

  function Owned(hs: seq<Holding>, owner: Digest): (n: nat)
    ensures n <= |hs|
  {
    if |hs| == 0 then 0 else Owned(hs[..|hs| - 1], owner) + if hs[|hs| - 1].owner == owner then 1 else 0
  }

  /** The value leaves and arrives at one account, on a screen that names a receiver. */
  predicate ToSelf(s: Screen) { s.kind == DEST_RECEIVER && s.sender.Some? && s.sender == s.destination }

  predicate CarriesAmount(s: Screen, holding: Holding) { s.amount.None? || holding.amount == s.amount.value }

  /** The destination holds what the screen says, and nobody but it and the sender holds anything. */
  predicate DestinationHolds(hs: seq<Holding>, s: Screen)
    requires s.destination.Some?
  {
    (forall i :: 0 <= i < |hs| ==> hs[i].owner == s.destination.value || s.sender == Some(hs[i].owner)) &&
    1 <= Owned(hs, s.destination.value) <= (if ToSelf(s) then 2 else 1) &&
    exists i :: 0 <= i < |hs| && hs[i].owner == s.destination.value && CarriesAmount(s, hs[i])
  }

  predicate Agrees(hs: seq<Holding>, instrument: Option<Digest>, s: Screen)
  {
    if s.kind == DEST_NONE then |hs| == 0
    else
      s.destination.Some? && DestinationHolds(hs, s) &&
      (s.admin.Some? ==> forall i :: 0 <= i < |hs| ==> hs[i].admin == s.admin.value) &&
      (instrument.Some? ==> s.instrument == instrument)
  }

  predicate Verdict(v: Values) { v.ok && v.screen.Some? && Agrees(v.holdings, v.instrument, v.screen.value) }

  /** values_can_clear_sign: a screen that disagrees is remembered as a failure. */
  function AfterVerdict(v: Values): Values
  {
    if v.ok && v.screen.Some? && !Agrees(v.holdings, v.instrument, v.screen.value) then GiveUp(v) else v
  }

  // ------------------------------------------------------------------ the module's state

  /** The static store. A digest and its has_ flag are one Option; what the screen showed is one value. */
  class ValuesStore {
    const h: Sha256
    const holdings: array<Holding>
    var holdingsCount: nat
    var holdingsInstrument: Option<Digest>
    var used: array?<Digest>
    var usedCount: nat
    var shown: Screen
    var bound: bool
    var ok: bool

    ghost predicate Valid()
      reads this
    {
      holdings.Length == 4 && holdingsCount <= 4 &&
      (used == null ==> usedCount == 0) && (used != null ==> used.Length == 32 && usedCount <= 32)
    }

    ghost function Repr(): set<object>
      reads this
    {
      {this, holdings} + if used == null then {} else {used}
    }

    ghost function UsedList(): Option<seq<Digest>>
      requires Valid()
      reads this, used
    {
      if used == null then None else Some(used[..usedCount])
    }

    ghost function Model(): Values
      requires Valid()
      reads this, holdings, used
    {
      Values(holdings[..holdingsCount], holdingsInstrument, UsedList(), if bound then Some(shown) else None, ok)
    }

    constructor (h: Sha256)
      ensures Valid() && fresh(Repr()) && Model() == FRESH && this.h == h
    {
      this.h := h;
      holdings := new Holding[4](_ => Holding([], [], []));
      holdingsCount, holdingsInstrument, used, usedCount := 0, None, null, 0;
      shown, bound, ok := NOTHING_SHOWN, false, true;
    }

    method GiveUpNow()
      requires Valid()
      modifies `ok
      ensures Valid() && Model() == GiveUp(old(Model()))
    {
      if ok {
        ok := false;
      }
    }

    method ReleaseUsedContracts()
      requires Valid()
      modifies `used, `usedCount
      ensures Valid() && Model() == old(Model()).(used := None)
    {
      used := null;
      usedCount := 0;
    }

    method Reset()
      requires Valid()
      modifies this
      ensures Valid() && Model() == FRESH
    {
      ReleaseUsedContracts();
      holdingsCount, holdingsInstrument := 0, None;
      shown, bound := NOTHING_SHOWN, false;
      ok := true;
    }

    /** The linear search both contract checks share. */
    method IsUsed(d: Digest) returns (found: bool)
      requires Valid()
      ensures found <==> used != null && d in used[..usedCount]
    {
      for i := 0 to usedCount
        invariant forall j :: 0 <= j < i ==> used[j] != d
      {
        if used[i] == d {
          return true;
        }
      }
      return false;
    }

    /** The new entry, unless it is there already or the list is full. */
    method Remember(d: Digest)
      requires Valid() && used != null
      modifies `usedCount, `ok, used
      ensures Valid() && used == old(used)
      ensures
        var list := old(used[..usedCount]);
        used[..usedCount] == if d in list || |list| == 32 then list else list + [d]
      ensures ok == (old(ok) && (d in old(used[..usedCount]) || old(usedCount) < 32))
    {
      var found := IsUsed(d);
      if found {
        return;
      }
      if usedCount >= MAX_USED_CONTRACTS {
        GiveUpNow();
        return;
      }
      used[usedCount] := d;
      usedCount := usedCount + 1;
    }

    method RecordUsedContract(contractId: Option<Str>, room: bool)
      requires Valid()
      modifies `used, `usedCount, `ok, used
      ensures Valid() && (used == old(used) || fresh(used))
      ensures Model() == RecordUsed(h, old(Model()), contractId, room)
    {
      hide ContractDigest;
      if contractId.None? || !ok {
        return;
      }
      if used == null && !room {
        GiveUpNow();
        return;
      }
      RecordDigest(ContractDigest(h, contractId.value));
    }

    method RecordDigest(d: Digest)
      requires Valid()
      modifies `used, `usedCount, `ok, used
      ensures Valid() && (used == old(used) || fresh(used))
      ensures
        var list := if old(used) == null then [] else old(used[..usedCount]);
        UsedList() == Some(if d in list || |list| == 32 then list else list + [d]) &&
        ok == (old(ok) && (d in list || |list| < 32))
    {
      if used == null {
        used := new Digest[32](_ => []);
      }
      Remember(d);
    }

    method CheckDisclosedContract(contractId: Option<Str>)
      requires Valid()
      modifies `ok
      ensures Valid() && Model() == CheckDisclosed(h, old(Model()), contractId)
    {
      if contractId.None? || !ok {
        return;
      }
      var found := IsUsed(ContractDigest(h, contractId.value));
      if !found {
        GiveUpNow();
      }
    }

    method ReportHolding(holding: Holding, named: Option<Digest>)
      requires Valid()
      modifies `holdingsCount, `holdingsInstrument, `ok, holdings
      ensures Valid() && Model() == Report(old(Model()), holding, named)
    {
      if holdingsCount >= MAX_HOLDINGS {
        GiveUpNow();
        return;
      }
      holdings[holdingsCount] := holding;
      holdingsCount := holdingsCount + 1;
      if named.None? {
        return;
      }
      if holdingsInstrument.None? {
        holdingsInstrument := named;
      } else if holdingsInstrument != named {
        GiveUpNow();
      }
    }

    /** The loop over the fields: the last field of each kind wins. */
    static method FindShown(fields: seq<DisplayField>, kind: Destination, comparable: bool)
      returns (shownDestination: Option<Str>, shownAmount: Option<Str>, shownAdmin: Option<Str>, shownSender: Option<Str>,
               shownInstrument: Option<Str>)
      ensures shownDestination == ShownDestination(fields, kind)
      ensures shownAmount == if comparable then LastShown(fields, SHOWN_AS_AMOUNT) else None
      ensures shownAdmin == LastShown(fields, SHOWN_AS_ADMIN) && shownSender == LastShown(fields, SHOWN_AS_SENDER)
      ensures shownInstrument == LastShown(fields, SHOWN_AS_INSTRUMENT)
      ensures kind == DEST_RECEIVER ==> Shows(fields, SHOWN_AS_RECEIVER, shownDestination)
      ensures kind == DEST_SENDER ==> Shows(fields, SHOWN_AS_SENDER, shownDestination)
      ensures kind == DEST_NONE ==> shownDestination.None?
      ensures if comparable then Shows(fields, SHOWN_AS_AMOUNT, shownAmount) else shownAmount.None?
      ensures Shows(fields, SHOWN_AS_ADMIN, shownAdmin) && Shows(fields, SHOWN_AS_SENDER, shownSender)
      ensures Shows(fields, SHOWN_AS_INSTRUMENT, shownInstrument)
    {
      hide Shows;
      shownDestination, shownAmount, shownAdmin, shownSender, shownInstrument := None, None, None, None, None;
      for i := 0 to |fields|
        invariant shownSender == LastShown(fields[..i], SHOWN_AS_SENDER)
        invariant shownDestination == ShownDestination(fields[..i], kind)
        invariant shownAmount == if comparable then LastShown(fields[..i], SHOWN_AS_AMOUNT) else None
        invariant shownAdmin == LastShown(fields[..i], SHOWN_AS_ADMIN)
        invariant shownInstrument == LastShown(fields[..i], SHOWN_AS_INSTRUMENT)
      {
        var field := fields[i];
        assert fields[..i + 1][..i] == fields[..i];
        if field.value.Some? && field.shownAs.Some? {
          match field.shownAs.value {
            case SHOWN_AS_SENDER =>
              shownSender := field.value;
              if kind == DEST_SENDER {
                shownDestination := field.value;
              }
            case SHOWN_AS_RECEIVER =>
              if kind == DEST_RECEIVER {
                shownDestination := field.value;
              }
            case SHOWN_AS_AMOUNT =>
              if comparable {
                shownAmount := field.value;
              }
            case SHOWN_AS_ADMIN => shownAdmin := field.value;
            case SHOWN_AS_INSTRUMENT => shownInstrument := field.value;
            case SHOWN_AS_OTHER =>
          }
        }
      }
      assert fields[..|fields|] == fields;
      forall k: ShownAs
        ensures Shows(fields, k, LastShown(fields, k))
      {
        LastShownShows(fields, k);
      }
    }

    /** A second screen replaces the first one's values. */
    method BindScreen(s: Screen)
      requires Valid()
      modifies `shown, `bound
      ensures Valid() && Model() == old(Model()).(screen := Some(s))
    {
      shown, bound := s, true;
    }

    method BindFromDisplay(fields: seq<DisplayField>, kind: Destination, comparable: bool)
      requires Valid()
      modifies `shown, `bound
      ensures Valid() && Model() == old(Model()).(screen := Some(ScreenOf(h, fields, kind, comparable)))
      ensures Model().screen.Some? && ScreenFollows(h, fields, kind, comparable, Model().screen.value)
    {
      hide LastShown, ShownDestination, DigestOf, ValuesStore.UsedList, Shows, ScreenFollows;
      NothingShown(h);
      ScreenMeaning(h, fields, kind, comparable);
      var shownDestination, shownAmount, shownAdmin, shownSender, shownInstrument := FindShown(fields, kind, comparable);
      BindScreen(Screen(kind, DigestOf(h, shownDestination), DigestOf(h, shownAmount), DigestOf(h, shownAdmin), DigestOf(h, shownSender),
                        DigestOf(h, shownInstrument)));
    }

    method IsTransferToSelf() returns (b: bool)
      ensures b == ToSelf(shown)
    {
      return shown.kind == DEST_RECEIVER && shown.sender.Some? && shown.destination.Some? && shown.sender == shown.destination;
    }

    /** The loop over the holdings; known is false at a holding of an account the screen does not name. */
    method ScanHoldings() returns (known: bool, owned: nat, amountSeen: bool)
      requires Valid() && shown.destination.Some?
      ensures
        var hs, s := holdings[..holdingsCount], shown;
        (known <==> forall j :: 0 <= j < |hs| ==> hs[j].owner == s.destination.value || s.sender == Some(hs[j].owner)) &&
        (known ==> owned == Owned(hs, s.destination.value)) &&
        (known ==> (amountSeen <==> exists j :: 0 <= j < |hs| && hs[j].owner == s.destination.value && CarriesAmount(s, hs[j])))
    {
      ghost var hs, s := holdings[..holdingsCount], shown;
      var destination := shown.destination.value;
      owned, amountSeen := 0, false;
      for i := 0 to holdingsCount
        invariant owned == Owned(hs[..i], destination)
        invariant forall j :: 0 <= j < i ==> hs[j].owner == s.destination.value || s.sender == Some(hs[j].owner)
        invariant amountSeen <==> exists j :: 0 <= j < i && hs[j].owner == s.destination.value && CarriesAmount(s, hs[j])
      {
        assert hs[..i + 1][..i] == hs[..i] && hs[i] == holdings[i];
        if holdings[i].owner != destination {
          if shown.sender.None? || holdings[i].owner != shown.sender.value {
            return false, owned, amountSeen;
          }
          continue;
        }
        owned := owned + 1;
        if shown.amount.None? || holdings[i].amount == shown.amount.value {
          amountSeen := true;
        }
      }
      assert hs[..holdingsCount] == hs;
      return true, owned, amountSeen;
    }

    method DestinationHoldsValue() returns (b: bool)
      requires Valid() && shown.destination.Some?
      modifies `ok
      ensures Valid() && b == DestinationHolds(holdings[..holdingsCount], shown)
      ensures Model() == if b then old(Model()) else GiveUp(old(Model()))
    {
      var known, owned, amountSeen := ScanHoldings();
      var self := IsTransferToSelf();
      if !known {
        GiveUpNow();
        return false;
      }
      if owned == 0 || (owned > 1 && (!self || owned > 2)) {
        GiveUpNow();
        return false;
      }
      if !amountSeen {
        GiveUpNow();
        return false;
      }
      return true;
    }

    method HoldingsMatchDisplayedInstrument() returns (b: bool)
      requires Valid() && shown.admin.Some?
      modifies `ok
      ensures Valid() && (b <==> forall i :: 0 <= i < holdingsCount ==> holdings[..holdingsCount][i].admin == shown.admin.value)
      ensures Model() == if b then old(Model()) else GiveUp(old(Model()))
    {
      for i := 0 to holdingsCount
        invariant ok == old(ok) && forall j :: 0 <= j < i ==> holdings[..holdingsCount][j].admin == shown.admin.value
      {
        if holdings[i].admin != shown.admin.value {
          GiveUpNow();
          return false;
        }
      }
      return true;
    }

    method HoldingsMatchDisplayedId() returns (b: bool)
      requires Valid()
      modifies `ok
      ensures Valid() && (b <==> (holdingsInstrument.Some? ==> shown.instrument == holdingsInstrument))
      ensures Model() == if b then old(Model()) else GiveUp(old(Model()))
    {
      if holdingsInstrument.Some? && shown.instrument.None? {
        GiveUpNow();
        return false;
      }
      if shown.instrument.Some? && holdingsInstrument.Some? && holdingsInstrument.value != shown.instrument.value {
        GiveUpNow();
        return false;
      }
      return true;
    }

    method CanClearSign() returns (b: bool)
      requires Valid()
      modifies `ok
      ensures Valid() && b == Verdict(old(Model())) && Model() == AfterVerdict(old(Model()))
    {
      if !ok || !bound {
        return false;
      }
      if shown.kind == DEST_NONE {
        if holdingsCount > 0 {
          GiveUpNow();
        }
        return holdingsCount == 0;
      }
      if shown.destination.None? {
        GiveUpNow();
        return false;
      }
      b := DestinationHoldsValue();
      if b && shown.admin.Some? {
        b := HoldingsMatchDisplayedInstrument();
      }
      if b {
        b := HoldingsMatchDisplayedId();
      }
    }
  }

  lemma NothingShown(h: Sha256)
    ensures DigestOf(h, None) == None
  {
  }
}
