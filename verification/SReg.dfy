/** The S-register store of app/src/sreg.c. */
module SReg {
  import opened Wrappers
  import opened AtResults
  import opened Settings
  import opened AtFmt
  import opened CText
  import opened SRegValue

  /*
   A table in RAM, its copy in flash, writes of values and of single bits, and the password.

   `Store` is the RAM table with the settings keys at/s/XX. A settings value carries its terminator.
   */

  // ------------------------------------------------------------ the table

  const ZERO64 := "0000000000000000"
  const ZERO128 := "00000000000000000000000000000000"

  /** "ZigBeeAlliance09". */
  const KEY09 := "5A696742" + "6565416C" + "6C69616E" + "63653039"

  const LOW_REGS: seq<Reg> := [
    Reg(0x00, U16, true, false, false, 0, "FFFF"),
    Reg(0x01, S8, true, false, false, 0, "07"),
    Reg(0x02, U16, true, false, false, 0, "0000"),
    Reg(0x03, Hex64, true, false, false, 0, ZERO64),
    Reg(0x04, Dyn, false, true, false, 0, ""),
    Reg(0x05, Dyn, false, true, false, 0, ""),
    Reg(0x08, Key128, true, false, true, 0, ZERO128),
    Reg(0x09, Key128, true, false, true, 0, KEY09),
    Reg(0x0A, U16, true, false, true, 0, "0000"),
    Reg(0x0B, Str, true, false, false, 16, ""),
    Reg(0x0C, Str, true, false, true, 8, "password"),
    Reg(0x0D, Dyn, false, true, false, 0, ""),
    Reg(0x0E, U16, true, false, false, 0, "0000"),
    Reg(0x0F, U16, true, false, false, 0, "0006"),
    Reg(0x10, U16, true, false, false, 0, "0000"),
    Reg(0x12, U16, true, false, false, 0, "0C00")]

  const HIGH_REGS: seq<Reg> := [
    Reg(0x40, U16, false, false, false, 0, "0101"),
    Reg(0x41, U16, true, false, false, 0, "0101"),
    Reg(0x42, U16, false, false, false, 0, "0002"),
    Reg(0x43, U16, true, false, false, 0, "0002"),
    Reg(0x44, U16, false, false, false, 0, "C091"),
    Reg(0x45, U16, true, false, false, 0, "C091"),
    Reg(0x48, U16, true, false, false, 0, "C091"),
    Reg(0x49, U16, true, false, false, 0, "0000"),
    Reg(0x4A, U8, true, false, false, 0, "00"),
    Reg(0x4B, Clusters, true, false, false, 0, ""),
    Reg(0x4C, Clusters, true, false, false, 0, ""),
    Reg(0x4E, U16, true, false, false, 0, "0000")]

  const REG_LIST := LOW_REGS + HIGH_REGS

  /** Registers by ID. */
  type Table = map<nat, Reg>

  const REGS := TableOf(REG_LIST)

  /** The table of a list. */
  function TableOf(list: seq<Reg>): Table {
    if list == [] then map[] else TableOf(list[1..])[list[0].id := list[0]]
  }

  datatype Store = Store(vals: map<nat, string>, flash: map<nat, string>)

  const PASSWORD := 0x0C

  /** The registers that are kept in flash. */
  function NvIds(regs: Table): set<nat> {
    set id | id in regs && regs[id].nv
  }

  function At(vals: map<nat, string>, id: nat): string {
    if id in vals then vals[id] else ""
  }

  function Val(s: Store, id: nat): string {
    At(s.vals, id)
  }

  /** `load_defaults`. */
  function Defaults(regs: Table): (m: map<nat, string>)
    ensures m.Keys == regs.Keys
  {
    map id | id in regs :: regs[id].def
  }

  function Overlay(vals: map<nat, string>, flash: map<nat, string>): (m: map<nat, string>)
    ensures m.Keys == vals.Keys
  {
    map id | id in vals ::
      if id in flash && Loaded(flash[id], VAL_MAX).Some? then Loaded(flash[id], VAL_MAX).value else vals[id]
  }

  /** `init_volatile`. */
  function InitVolatile(vals: map<nat, string>): map<nat, string> {
    vals[0x40 := At(vals, 0x41)][0x42 := At(vals, 0x43)][0x44 := At(vals, 0x45)]
  }

  /** `sreg_init`. */
  function Boot(regs: Table, flash: map<nat, string>): Store {
    Store(InitVolatile(Overlay(Defaults(regs), flash)), flash)
  }

  /** `sreg_factory_reset`. */
  function FactoryReset(regs: Table, s: Store): Store {
    Store(InitVolatile(Defaults(regs)), s.flash - NvIds(regs))
  }

  /** The value and what follows the first ':', or the first ';' if there is no ':'. */
  function SplitArg(arg: string): (string, Option<string>) {
    var sep := if IndexOf(arg, ':') < |arg| then IndexOf(arg, ':') else IndexOf(arg, ';');
    if sep < |arg| then (arg[..sep], Some(arg[sep + 1..])) else (arg, None)
  }

  /** The text a single-bit write validates. */
  function BitText(r: Reg, val: string, bit: nat, value: string): Result<string> {
    if !Numeric(r) || (value != "0" && value != "1") then Err(AT_ERR_INVALID_PARAM)
    else Ok(FmtX(Digits(r), SetBit(U32(val), bit, value == "1")))
  }

  /** What a write validates: the value itself, or the text of the changed number. */
  function TextToValidate(s: Store, r: Reg, bit: Option<nat>, arg: string): Result<string> {
    match bit
    case None => Ok(SplitArg(arg).0)
    case Some(b) => BitText(r, Val(s, r.id), b, SplitArg(arg).0)
  }

  /** `write_reg`. */
  function WriteReg(s: Store, r: Reg, bit: Option<nat>, arg: string): (Store, int) {
    if r.ro then (s, AT_ERR_READ_ONLY)
    else if r.pw && SplitArg(arg).1 != Some(Val(s, PASSWORD)) then (s, AT_ERR_BAD_PASSWORD)
    else
      match TextToValidate(s, r, bit, arg)
      case Err(e) => (s, e)
      case Ok(text) =>
        match Normalise(r, text)
        case Err(e) => (s, e)
        case Ok(out) =>
          (Store(s.vals[r.id := out], if r.nv then s.flash[r.id := Stored(out)] else s.flash), AT_OK)
  }

  /** Leading hex digits. */
  function HexRun(s: string): (n: nat)
    ensures n <= |s|
  {
    if s == "" || HexNibble(s[0]) < 0 then 0 else 1 + HexRun(s[1..])
  }

  /** What follows "ATS": register, bit if there is a third digit, and `?` or `=`. */
  datatype Request =
    | BadReg
    | BadSyntax
    | Query(r: Reg, bit: Option<nat>)
    | Assign(r: Reg, bit: Option<nat>, arg: string)

  function ParseRequest(regs: Table, arg: string): Request {
    var n := HexRun(arg);
    if n != 2 && n != 3 then BadReg
    else
      match ParseHexN(arg[..2])
      case None => BadReg
      case Some(id) =>
        if id !in regs then BadReg
        else
          var r := regs[id];
          var bit := if n == 3 then ParseHexN(arg[2..3]) else None;
          if arg[n..] == "?" then Query(r, bit)
          else if n < |arg| && arg[n] == '=' then Assign(r, bit, arg[n + 1..])
          else BadSyntax
  }

  /** `sreg_at_command`; a query changes nothing. */
  function AtCommand(regs: Table, s: Store, arg: string): (Store, int) {
    match ParseRequest(regs, arg)
    case BadReg => (s, AT_ERR_INVALID_SREG)
    case BadSyntax => (s, AT_ERR_INVALID_PARAM)
    case Query(r, bit) => (s, if bit.Some? && !Numeric(r) then AT_ERR_INVALID_PARAM else AT_OK)
    case Assign(r, bit, value) => WriteReg(s, r, bit, value)
  }

  datatype Event = Command(arg: string) | Restart | Factory

  function Apply(regs: Table, s: Store, e: Event): Store {
    match e
    case Command(arg) => AtCommand(regs, s, arg).0
    case Restart => Boot(regs, s.flash)
    case Factory => FactoryReset(regs, s)
  }

  function RunFrom(regs: Table, s: Store, es: seq<Event>): Store
    decreases |es|
  {
    if es == [] then s else RunFrom(regs, Apply(regs, s, es[0]), es[1..])
  }

  // ------------------------------------------------------------ the table's own facts

  predicate Clean(text: string) {
    ':' !in text && '\0' !in text
  }

  predicate Canonical(r: Reg, val: string) {
    Clean(val) && |val| < VAL_MAX && if r.kind == Dyn then val == "" else Normalise(r, val) == Ok(val)
  }

  predicate Sound(r: Reg) {
    && r.maxLen < VAL_MAX && Canonical(r, r.def)
    && (r.kind == Dyn ==> r.ro && !r.nv)
  }

  lemma NumberCanonical(r: Reg)
    requires Numeric(r) && UpperHex(r.def) && |r.def| == Digits(r) && r.id != 0x12
    ensures Normalise(r, r.def) == Ok(r.def)
  {
    FmtXOfHexVal(r.def);
  }

  lemma UpperHexCanonical(r: Reg)
    requires Numeric(r) || r.kind == Hex64 || r.kind == Key128
    requires UpperHex(r.def) && |r.def| == Digits(r) && r.maxLen == 0 && r.id != 0x12
    ensures Sound(r)
  {
    HexClean(r.def);
    if Numeric(r) {
      NumberCanonical(r);
    } else {
      UpperUnchanged(r.def);
    }
  }

  lemma S01Canonical()
    ensures Sound(Reg(0x01, S8, true, false, false, 0, "07"))
  {
    SevenPadded();
    SignedSound(Reg(0x01, S8, true, false, false, 0, "07"), 7);
  }

  lemma SevenPadded()
    ensures Pad2(7) == "07"
  {
  }

  lemma SignedSound(r: Reg, d: int)
    requires -40 <= d <= 8 && r == Reg(0x01, S8, true, false, false, 0, Pad2(d))
    ensures Sound(r)
  {
    SignedKept(r, d);
    SignedClean(d);
  }

  lemma SignedClean(d: int)
    requires -40 <= d <= 8
    ensures Clean(Pad2(d))
  {
  }

  lemma S12Value()
    ensures HexVal("0C00") == Some(0x0C00)
  {
    assert "0C00"[..3] == "0C0" && "0C0"[..2] == "0C" && "0C"[..1] == "0" && "0"[..0] == "";
  }

  lemma S12Canonical(r: Reg)
    requires r == Reg(0x12, U16, true, false, false, 0, "0C00")
    ensures Sound(r)
  {
    S12Value();
    FmtXOfHexVal(r.def);
  }

  lemma DefaultsUpperHex()
    ensures UpperHex("FFFF") && UpperHex("0000") && UpperHex("0006") && UpperHex("0101")
    ensures UpperHex("0002") && UpperHex("C091") && UpperHex("00")
  {
  }

  lemma ZerosUpperHex()
    ensures UpperHex(ZERO64) && UpperHex(ZERO128)
  {
    assert ZERO64 == seq(16, _ => '0');
    assert ZERO128 == seq(32, _ => '0');
  }

  lemma KeyUpperHex()
    ensures UpperHex(KEY09)
  {
    assert UpperHex("5A696742") && UpperHex("6565416C") && UpperHex("6C69616E") && UpperHex("63653039");
  }

  /** Hex registers, by how long their default is. */
  lemma HexSound(r: Reg)
    requires Numeric(r) || r.kind == Hex64 || r.kind == Key128
    requires r.def in {"FFFF", "0000", "0006", "0101", "0002", "C091", "00", ZERO64, ZERO128, KEY09}
    requires |r.def| == Digits(r) && r.maxLen == 0 && r.id != 0x12
    ensures Sound(r)
  {
    DefaultsUpperHex();
    ZerosUpperHex();
    KeyUpperHex();
    UpperHexCanonical(r);
  }

  lemma TextSound(r: Reg)
    requires r.kind == Str || r.kind == Clusters || (r.kind == Dyn && r.ro && !r.nv && r.def == "")
    requires r.def == "" || (r.def == "password" && r.kind == Str)
    requires |r.def| <= r.maxLen < VAL_MAX
    ensures Sound(r)
  {
  }

  lemma LowSound(k: nat)
    requires k < 8
    ensures Sound(LOW_REGS[k])
  {
    if k == 1 {
      S01Canonical();
    } else if k == 4 || k == 5 {
      TextSound(LOW_REGS[k]);
    } else {
      HexSound(LOW_REGS[k]);
    }
  }

  lemma MiddleSound(k: nat)
    requires 8 <= k < |LOW_REGS|
    ensures Sound(LOW_REGS[k])
  {
    if 9 <= k < 12 {
      TextSound(LOW_REGS[k]);
    } else if k == 15 {
      S12Canonical(LOW_REGS[k]);
    } else {
      HexSound(LOW_REGS[k]);
    }
  }

  lemma HighSound(k: nat)
    requires k < |HIGH_REGS|
    ensures Sound(HIGH_REGS[k])
  {
    var r := HIGH_REGS[k];
    if r.kind == Clusters {
      TextSound(r);
    } else {
      HexSound(r);
    }
  }

  /** A register kept in RAM only, and the register it starts from. */
  predicate StartsFrom(regs: Table, id: nat, from: nat) {
    && id in regs && from in regs
    && (var a, b := regs[id], regs[from];
        a.kind == b.kind == U16 && !a.nv && b.nv && a.def == b.def)
  }

  /** What the rest relies on: canonical defaults, and the pairs S40/S41, S42/S43, S44/S45. */
  predicate GoodTable(regs: Table) {
    && (forall id :: id in regs ==> regs[id].id == id && Sound(regs[id]))
    && StartsFrom(regs, 0x40, 0x41) && StartsFrom(regs, 0x42, 0x43) && StartsFrom(regs, 0x44, 0x45)
  }

  /** The table of a list keeps every register of a list without double IDs. */
  lemma {:induction false} TableOfKeeps(list: seq<Reg>)
    ensures forall id :: id in TableOf(list) ==> TableOf(list)[id] in list && TableOf(list)[id].id == id
    ensures Ascending(list) ==> forall r :: r in list ==> r.id in TableOf(list) && TableOf(list)[r.id] == r
  {
    if list != [] {
      TableOfKeeps(list[1..]);
    }
  }

  predicate Ascending(list: seq<Reg>) {
    forall i, j :: 0 <= i < j < |list| ==> list[i].id < list[j].id
  }

  lemma {:induction false} AscendingBySteps(list: seq<Reg>)
    requires forall k :: 0 < k < |list| ==> list[k - 1].id < list[k].id
    ensures Ascending(list)
  {
    if list != [] {
      var init := list[..|list| - 1];
      AscendingBySteps(init);
      if init != [] {
        assert forall i :: 0 <= i < |init| ==> init[i].id <= init[|init| - 1].id;
      }
    }
  }

  lemma LowStep(k: nat)
    requires 0 < k < |LOW_REGS|
    ensures LOW_REGS[k - 1].id < LOW_REGS[k].id < 0x40
  {
  }

  lemma LowAscending()
    ensures Ascending(LOW_REGS) && forall k :: 0 <= k < |LOW_REGS| ==> LOW_REGS[k].id < 0x40
  {
    forall k | 0 < k < |LOW_REGS|
      ensures LOW_REGS[k - 1].id < LOW_REGS[k].id < 0x40
    {
      LowStep(k);
    }
    AscendingBySteps(LOW_REGS);
  }

  lemma HighAscending()
    ensures Ascending(HIGH_REGS) && forall k :: 0 <= k < |HIGH_REGS| ==> 0x40 <= HIGH_REGS[k].id < 0x100
  {
    AscendingBySteps(HIGH_REGS);
  }

  lemma JoinAscending(low: seq<Reg>, high: seq<Reg>, limit: nat)
    requires Ascending(low) && forall k :: 0 <= k < |low| ==> low[k].id < limit
    requires Ascending(high) && forall k :: 0 <= k < |high| ==> high[k].id >= limit
    ensures Ascending(low + high)
  {
  }

  /** The firmware's table is in the order of its IDs, and they are bytes. */
  lemma ListGood()
    ensures Ascending(REG_LIST) && forall id :: id in REGS ==> id < 0x100
  {
    LowAscending();
    HighAscending();
    JoinAscending(LOW_REGS, HIGH_REGS, 0x40);
    TableOfKeeps(REG_LIST);
  }

  predicate Paired(a: Reg, b: Reg) {
    a.kind == b.kind == U16 && !a.nv && b.nv && a.def == b.def && b.id == a.id + 1
  }

  /** A list of sound registers whose `six` first high ones are such pairs makes a good table. */
  lemma GoodFrom(list: seq<Reg>, six: seq<Reg>)
    requires Ascending(list) && forall r :: r in list ==> Sound(r)
    requires |six| == 6 && forall r :: r in six ==> r in list
    requires six[0].id == 0x40 && six[2].id == 0x42 && six[4].id == 0x44
    requires Paired(six[0], six[1]) && Paired(six[2], six[3]) && Paired(six[4], six[5])
    ensures GoodTable(TableOf(list))
  {
    TableOfKeeps(list);
    assert six[0] in six && six[1] in six && six[2] in six && six[3] in six && six[4] in six && six[5] in six;
  }

  lemma HighPair(k: nat)
    requires k == 0 || k == 2 || k == 4
    ensures HIGH_REGS[k].id == 0x40 + k && Paired(HIGH_REGS[k], HIGH_REGS[k + 1])
  {
  }

  lemma TableSound(r: Reg)
    requires r in REG_LIST
    ensures Sound(r)
  {
    if r in LOW_REGS {
      var k :| 0 <= k < |LOW_REGS| && LOW_REGS[k] == r;
      if k < 8 {
        LowSound(k);
      } else {
        MiddleSound(k);
      }
    } else {
      var k :| 0 <= k < |HIGH_REGS| && HIGH_REGS[k] == r;
      HighSound(k);
    }
  }

  /** The firmware's table is one. */
  lemma TableGood()
    ensures GoodTable(REGS)
  {
    ListGood();
    forall r | r in REG_LIST
      ensures Sound(r)
    {
      TableSound(r);
    }
    HighPair(0);
    HighPair(2);
    HighPair(4);
    GoodFrom(REG_LIST, HIGH_REGS[..6]);
  }

  // ------------------------------------------------------------ what every step keeps

  predicate Canonicals(regs: Table, vals: map<nat, string>) {
    && vals.Keys == regs.Keys
    && forall id :: id in regs ==> Canonical(regs[id], vals[id])
  }

  /** Flash holds what RAM holds, and the default where it holds nothing. */
  predicate FlashAgrees(regs: Table, s: Store) {
    && s.vals.Keys == regs.Keys
    && s.flash.Keys <= NvIds(regs)
    && forall id :: id in NvIds(regs) ==>
                      if id in s.flash then Loaded(s.flash[id], VAL_MAX) == Some(s.vals[id])
                      else s.vals[id] == regs[id].def
  }

  predicate Inv(regs: Table, s: Store) {
    Canonicals(regs, s.vals) && FlashAgrees(regs, s)
  }

  lemma {:induction false} HexClean(s: string)
    requires UpperHex(s)
    ensures Clean(s)
  {
    assert HexNibble(':') == -1 && HexNibble('\0') == -1;
  }

  lemma {:induction false} ListClean(ids: seq<nat>)
    ensures Clean(ListText(ids))
    decreases |ids|
  {
    if ids != [] {
      HexClean(FmtX(4, ids[0]));
      if |ids| > 1 {
        ListClean(ids[1..]);
      }
    }
  }

  /** Validation lets no ':' and no NUL through. */
  lemma OutputClean(r: Reg, input: string)
    requires Clean(input) && Normalise(r, input).Ok?
    ensures Clean(Normalise(r, input).value)
  {
    if Numeric(r) {
      NumberIdempotent(r, input);
      HexClean(Normalise(r, input).value);
    } else if r.kind == Hex64 || r.kind == Key128 {
      UpperIdempotent(input);
      HexClean(ToUpper(input));
    } else if r.kind == Clusters {
      NormClustersMeaning(input);
      ListClean(ListVal(input).value);
    }
  }

  lemma SplitArgParts(arg: string)
    requires '\0' !in arg
    ensures Clean(SplitArg(arg).0)
  {
  }

  /** What a successful write puts in RAM and flash. */
  lemma WrittenCanonical(s: Store, r: Reg, bit: Option<nat>, arg: string)
    requires '\0' !in arg && r.maxLen < VAL_MAX && WriteReg(s, r, bit, arg).1 == AT_OK && r.kind != Dyn
    ensures TextToValidate(s, r, bit, arg).Ok? && Normalise(r, TextToValidate(s, r, bit, arg).value).Ok?
    ensures var out := Normalise(r, TextToValidate(s, r, bit, arg).value).value;
            && Canonical(r, out) && Loaded(Stored(out), VAL_MAX) == Some(out)
            && WriteReg(s, r, bit, arg).0 ==
               Store(s.vals[r.id := out], if r.nv then s.flash[r.id := Stored(out)] else s.flash)
  {
    SplitArgParts(arg);
    var text := TextToValidate(s, r, bit, arg).value;
    if bit.Some? {
      HexClean(text);
    }
    NormaliseMeaning(r, text);
    OutputClean(r, text);
    StoredRoundTrip(Normalise(r, text).value, VAL_MAX);
  }

  lemma StoreCanonical(regs: Table, vals: map<nat, string>, r: Reg, out: string)
    requires Canonicals(regs, vals) && r.id in regs && regs[r.id] == r && Canonical(r, out)
    ensures Canonicals(regs, vals[r.id := out])
  {
  }

  lemma StoreAgrees(regs: Table, s: Store, r: Reg, out: string)
    requires FlashAgrees(regs, s) && r.id in regs && regs[r.id] == r && Loaded(Stored(out), VAL_MAX) == Some(out)
    ensures FlashAgrees(regs, Store(s.vals[r.id := out], if r.nv then s.flash[r.id := Stored(out)] else s.flash))
  {
  }

  /** One register's new value, in RAM and flash alike. */
  lemma StoreKeeps(regs: Table, s: Store, r: Reg, out: string)
    requires Inv(regs, s) && r.id in regs && regs[r.id] == r
    requires Canonical(r, out) && Loaded(Stored(out), VAL_MAX) == Some(out)
    ensures Inv(regs, Store(s.vals[r.id := out], if r.nv then s.flash[r.id := Stored(out)] else s.flash))
  {
    StoreCanonical(regs, s.vals, r, out);
    StoreAgrees(regs, s, r, out);
  }

  lemma WriteKeeps(regs: Table, s: Store, r: Reg, bit: Option<nat>, arg: string)
    requires GoodTable(regs) && Inv(regs, s) && '\0' !in arg && r.id in regs && regs[r.id] == r
    ensures Inv(regs, WriteReg(s, r, bit, arg).0)
  {
    if WriteReg(s, r, bit, arg).1 == AT_OK {
      WrittenCanonical(s, r, bit, arg);
      StoreKeeps(regs, s, r, Normalise(r, TextToValidate(s, r, bit, arg).value).value);
    }
  }

  lemma RequestReg(regs: Table, arg: string)
    requires GoodTable(regs) && ParseRequest(regs, arg).Assign?
    ensures var r := ParseRequest(regs, arg).r; r.id in regs && regs[r.id] == r
    ensures '\0' !in arg ==> '\0' !in ParseRequest(regs, arg).arg
  {
    var id := ParseHexN(arg[..2]).value;
    assert regs[id].id == id;
  }

  lemma CommandKeeps(regs: Table, s: Store, arg: string)
    requires GoodTable(regs) && Inv(regs, s) && '\0' !in arg
    ensures Inv(regs, AtCommand(regs, s, arg).0)
  {
    var q := ParseRequest(regs, arg);
    if q.Assign? {
      RequestReg(regs, arg);
      WriteKeeps(regs, s, q.r, q.bit, q.arg);
    }
  }

  /** Defaults overlaid with a consistent flash: what flash agrees with, defaults elsewhere. */
  lemma OverlayRestores(regs: Table, s: Store)
    requires GoodTable(regs) && Inv(regs, s)
    ensures var all := Overlay(Defaults(regs), s.flash);
            && Canonicals(regs, all)
            && forall id :: id in regs ==> all[id] == if id in NvIds(regs) then s.vals[id] else regs[id].def
  {
    var all := Overlay(Defaults(regs), s.flash);
    forall id | id in regs
      ensures all[id] == if id in NvIds(regs) then s.vals[id] else regs[id].def
      ensures Canonical(regs[id], all[id])
    {
    }
  }

  lemma CanonicalNumber(a: Reg, b: Reg, val: string)
    requires a.kind == b.kind == U16 && a.id != 0x12 && b.id != 0x12 && Canonical(a, val)
    ensures Canonical(b, val)
  {
  }

  /** S41 starts S40 with a value that is canonical for it too. */
  lemma VolatileCanonical(regs: Table, vals: map<nat, string>, id: nat, from: nat)
    requires GoodTable(regs) && StartsFrom(regs, id, from) && Canonicals(regs, vals) && id != 0x12 && from != 0x12
    ensures id in vals && from in vals && Canonicals(regs, vals[id := vals[from]])
  {
    CanonicalNumber(regs[from], regs[id], vals[from]);
  }

  lemma InitVolatileKeeps(regs: Table, vals: map<nat, string>)
    requires GoodTable(regs) && Canonicals(regs, vals)
    ensures Canonicals(regs, InitVolatile(vals))
    ensures forall id :: id in vals && id != 0x40 && id != 0x42 && id != 0x44 ==> InitVolatile(vals)[id] == vals[id]
    ensures 0x41 in vals && 0x43 in vals && 0x45 in vals
  {
    VolatileCanonical(regs, vals, 0x40, 0x41);
    var v1 := vals[0x40 := vals[0x41]];
    VolatileCanonical(regs, v1, 0x42, 0x43);
    VolatileCanonical(regs, v1[0x42 := vals[0x43]], 0x44, 0x45);
  }

  lemma SameNvAgrees(regs: Table, s: Store, vals: map<nat, string>)
    requires FlashAgrees(regs, s) && vals.Keys == regs.Keys
    requires forall id :: id in NvIds(regs) ==> vals[id] == s.vals[id]
    ensures FlashAgrees(regs, Store(vals, s.flash))
  {
  }

  /** S40, S42 and S44 are not kept in flash, and the registers they start from are. */
  lemma PairsNv(regs: Table)
    requires GoodTable(regs)
    ensures 0x40 !in NvIds(regs) && 0x42 !in NvIds(regs) && 0x44 !in NvIds(regs)
    ensures 0x41 in NvIds(regs) && 0x43 in NvIds(regs) && 0x45 in NvIds(regs)
  {
  }

  lemma BootCanonical(regs: Table, s: Store)
    requires GoodTable(regs) && Inv(regs, s)
    ensures Canonicals(regs, Boot(regs, s.flash).vals)
  {
    OverlayRestores(regs, s);
    InitVolatileKeeps(regs, Overlay(Defaults(regs), s.flash));
  }

  lemma BootRestores(regs: Table, s: Store)
    requires GoodTable(regs) && Inv(regs, s)
    ensures forall id :: id in NvIds(regs) ==>
                           id in Boot(regs, s.flash).vals && Boot(regs, s.flash).vals[id] == s.vals[id]
  {
    OverlayRestores(regs, s);
    PairsNv(regs);
  }

  lemma BootVolatile(regs: Table, s: Store)
    requires GoodTable(regs) && Inv(regs, s)
    ensures var t := Boot(regs, s.flash);
            && At(t.vals, 0x40) == At(s.vals, 0x41) && At(t.vals, 0x42) == At(s.vals, 0x43)
            && At(t.vals, 0x44) == At(s.vals, 0x45)
  {
    OverlayRestores(regs, s);
    PairsNv(regs);
    VolatileStarts(Overlay(Defaults(regs), s.flash));
  }

  lemma VolatileStarts(vals: map<nat, string>)
    ensures var t := InitVolatile(vals);
            At(t, 0x40) == At(vals, 0x41) && At(t, 0x42) == At(vals, 0x43) && At(t, 0x44) == At(vals, 0x45)
  {
  }

  /**
   A reset restores every register kept in flash, starts S40, S42 and S44 from S41, S43 and S45, and
   changes nothing in flash.
   */
  lemma RestartRestores(regs: Table, s: Store)
    requires GoodTable(regs) && Inv(regs, s)
    ensures var t := Boot(regs, s.flash);
            && Inv(regs, t) && t.flash == s.flash
            && (forall id :: id in NvIds(regs) ==> Val(t, id) == Val(s, id))
            && Val(t, 0x40) == Val(s, 0x41) && Val(t, 0x42) == Val(s, 0x43) && Val(t, 0x44) == Val(s, 0x45)
  {
    BootCanonical(regs, s);
    BootRestores(regs, s);
    BootVolatile(regs, s);
    SameNvAgrees(regs, s, Boot(regs, s.flash).vals);
  }

  lemma BlankGood(regs: Table)
    requires GoodTable(regs)
    ensures Inv(regs, Store(Defaults(regs), map[]))
  {
    forall id | id in regs
      ensures Canonical(regs[id], Defaults(regs)[id])
    {
    }
  }

  lemma OverlayOfNothing(vals: map<nat, string>)
    ensures Overlay(vals, map[]) == vals
  {
  }

  /** A factory reset makes the device a blank one, in RAM and in flash, now and after the next reset. */
  lemma FactoryIsBlank(regs: Table, s: Store)
    requires GoodTable(regs) && Inv(regs, s)
    ensures FactoryReset(regs, s) == Boot(regs, map[])
    ensures Boot(regs, FactoryReset(regs, s).flash) == FactoryReset(regs, s)
    ensures Inv(regs, FactoryReset(regs, s))
  {
    var blank := Store(Defaults(regs), map[]);
    assert s.flash - NvIds(regs) == map[];
    OverlayOfNothing(Defaults(regs));
    assert FactoryReset(regs, s) == Boot(regs, blank.flash);
    BlankGood(regs);
    RestartRestores(regs, blank);
  }

  lemma StepKeepsInv(regs: Table, s: Store, e: Event)
    requires GoodTable(regs) && Inv(regs, s) && (e.Command? ==> '\0' !in e.arg)
    ensures Inv(regs, Apply(regs, s, e))
  {
    match e
    case Command(arg) => CommandKeeps(regs, s, arg);
    case Restart => RestartRestores(regs, s);
    case Factory => FactoryIsBlank(regs, s);
  }

  /** Commands are C strings. */
  predicate CStrings(es: seq<Event>) {
    forall i :: 0 <= i < |es| && es[i].Command? ==> '\0' !in es[i].arg
  }

  lemma {:induction false} RunKeepsInv(regs: Table, s: Store, es: seq<Event>)
    requires GoodTable(regs) && Inv(regs, s) && CStrings(es)
    ensures Inv(regs, RunFrom(regs, s, es))
    decreases |es|
  {
    if es != [] {
      StepKeepsInv(regs, s, es[0]);
      RunKeepsInv(regs, Apply(regs, s, es[0]), es[1..]);
    }
  }

  /** After any commands, resets and factory resets: every value is canonical, and flash agrees with RAM. */
  lemma FlashAlwaysAgrees(es: seq<Event>)
    requires CStrings(es)
    ensures var s := RunFrom(REGS, Boot(REGS, map[]), es); Canonicals(REGS, s.vals) && FlashAgrees(REGS, s)
  {
    TableGood();
    BlankGood(REGS);
    RestartRestores(REGS, Store(Defaults(REGS), map[]));
    RunKeepsInv(REGS, Boot(REGS, map[]), es);
  }

  // ------------------------------------------------------------ what a command says

  /** Register, bit if there is one, and the rest. */
  predicate Names(arg: string, id: nat, bit: Option<nat>, rest: string) {
    var n := if bit.None? then 2 else 3;
    && |arg| == n + |rest| && arg[n..] == rest
    && HexVal(arg[..2]) == Some(id) && (bit.Some? ==> HexVal(arg[2..3]) == bit)
  }

  lemma {:induction false} HexRunOf(front: string, rest: string)
    requires AllHex(front) && (rest == "" || HexNibble(rest[0]) < 0)
    ensures HexRun(front + rest) == |front|
    decreases |front|
  {
    if front == "" {
      assert front + rest == rest;
    } else {
      assert (front + rest)[1..] == front[1..] + rest;
      HexRunOf(front[1..], rest);
    }
  }

  lemma {:induction false} HexRunHex(s: string)
    ensures AllHex(s[..HexRun(s)]) && (HexRun(s) < |s| ==> HexNibble(s[HexRun(s)]) < 0)
    decreases |s|
  {
    if s != "" && HexNibble(s[0]) >= 0 {
      HexRunHex(s[1..]);
      assert s[..HexRun(s)] == [s[0]] + s[1..][..HexRun(s[1..])];
    }
  }

  lemma NamedParts(name: string, digit: string, rest: string)
    requires |name| == 2 && |digit| <= 1 && AllHex(name) && AllHex(digit) && rest != "" && HexNibble(rest[0]) < 0
    ensures var arg := name + digit + rest; var n := HexRun(arg);
            n == 2 + |digit| && arg[..2] == name && arg[n..] == rest && (n == 3 ==> arg[2..3] == digit)
  {
    HexRunOf(name + digit, rest);
  }

  /** `?` or `=` with a value, behind a register the table has and a bit or none. */
  predicate Asks(regs: Table, arg: string, id: nat, bit: Option<nat>, rest: string) {
    id in regs && Names(arg, id, bit, rest)
  }

  lemma NamedRequest(regs: Table, arg: string, id: nat, bit: Option<nat>, rest: string)
    requires Asks(regs, arg, id, bit, rest) && rest != "" && HexNibble(rest[0]) < 0
    ensures ParseRequest(regs, arg) ==
            if rest == "?" then Query(regs[id], bit)
            else if rest[0] == '=' then Assign(regs[id], bit, rest[1..])
            else BadSyntax
  {
    var name, digit := arg[..2], if bit.None? then "" else arg[2..3];
    assert arg == name + digit + rest;
    HexValDefined(name);
    HexValDefined(digit);
    NamedParts(name, digit, rest);
  }

  /** The register and bit of a request are those in front of its `?` or `=`. */
  lemma RequestNamed(regs: Table, arg: string) returns (id: nat)
    requires ParseRequest(regs, arg).Query? || ParseRequest(regs, arg).Assign?
    ensures var q, n := ParseRequest(regs, arg), HexRun(arg);
            && id in regs && regs[id] == q.r && Names(arg, id, q.bit, arg[n..])
            && (q.Query? ==> arg[n..] == "?") && (q.Assign? ==> arg[n..] == "=" + q.arg)
  {
    var n := HexRun(arg);
    id := ParseHexN(arg[..2]).value;
    if n == 3 {
      ThirdDigit(arg);
    }
    if ParseRequest(regs, arg).Assign? {
      assert arg[n..] == [arg[n]] + arg[n + 1..];
    }
  }

  lemma ThirdDigit(arg: string)
    requires HexRun(arg) == 3
    ensures ParseHexN(arg[2..3]).Some? && ParseHexN(arg[2..3]) == HexVal(arg[2..3])
  {
    HexRunHex(arg);
    assert arg[2..3][0] == arg[..3][2];
    HexValDefined(arg[2..3]);
  }

  /** Value and password: the first ':' parts them, or the first ';' if there is no ':'. */
  lemma SplitArgExactly(arg: string, value: string, given: Option<string>)
    ensures SplitArg(arg) == (value, given) <==>
            match given
            case None => arg == value && ':' !in arg && ';' !in arg
            case Some(p) =>
              || (arg == value + ":" + p && ':' !in value)
              || (arg == value + ";" + p && ':' !in arg && ';' !in value)
  {
    if given.Some? {
      var p := given.value;
      if arg == value + ":" + p && ':' !in value {
        SplitAtColon(value, p);
      } else if arg == value + ";" + p && ':' !in arg && ';' !in value {
        SplitAtSemicolon(value, p);
      }
    }
    var (v, g) := SplitArg(arg);
    if g.Some? {
      SplitBack(arg);
    }
  }

  lemma SplitBack(arg: string)
    requires SplitArg(arg).1.Some?
    ensures var (v, g) := SplitArg(arg);
            || (arg == v + ":" + g.value && ':' !in v)
            || (arg == v + ";" + g.value && ':' !in arg && ';' !in v)
  {
    var (v, g) := SplitArg(arg);
    assert arg == v + [arg[|v|]] + g.value;
  }

  lemma SplitAtSemicolon(value: string, password: string)
    requires ';' !in value && ':' !in value + ";" + password
    ensures SplitArg(value + ";" + password) == (value, Some(password))
  {
    var arg := value + ";" + password;
    assert arg[|value|] == ';' && forall k :: 0 <= k < |value| ==> arg[k] == value[k];
    assert IndexOf(arg, ';') == |value|;
    assert arg[..|value|] == value && arg[|value| + 1..] == password;
  }

  /** The text a write must validate: the value, or 0 or 1 for a bit of a number. */
  predicate Writable(s: Store, r: Reg, bit: Option<nat>, value: string) {
    match bit
    case None => Takes(r, value)
    case Some(b) =>
      && Numeric(r) && (value == "0" || value == "1")
      && (b < 4 * Digits(r) || value == "0")
      && (r.id == 0x12 ==> SetBit(U32(Val(s, r.id)), b, value == "1") / 256 == 0x0C)
  }

  /**
   What a write command answers, and what it leaves: READ ONLY exactly for a register that cannot be written, BAD
   PASSWORD exactly for a protected one without the password of this moment, OK exactly for the others if the value
   is one they take, and INVALID PARAMETER for the rest. Without OK nothing changes.
   */
  lemma WriteAnswer(regs: Table, s: Store, arg: string, id: nat, bit: Option<nat>, value: string, given: Option<string>,
                    text: string)
    requires GoodTable(regs) && Inv(regs, s) && Asks(regs, arg, id, bit, "=" + text) && SplitArg(text) == (value, given)
    ensures var r := regs[id]; var (t, err) := AtCommand(regs, s, arg);
            && (err == AT_ERR_READ_ONLY <==> r.ro)
            && (err == AT_ERR_BAD_PASSWORD <==> !r.ro && !Known(s, r, given))
            && (err == AT_OK <==> !r.ro && Known(s, r, given) && Writable(s, r, bit, value))
            && (err == AT_ERR_INVALID_PARAM <==> !r.ro && Known(s, r, given) && !Writable(s, r, bit, value))
            && (err != AT_OK ==> t == s)
  {
    NamedRequest(regs, arg, id, bit, "=" + text);
    assert ("=" + text)[1..] == text;
    AssignIsWrite(regs, s, arg, regs[id], bit, text);
    WriteRegAnswer(regs, s, regs[id], bit, text);
  }

  lemma AssignIsWrite(regs: Table, s: Store, arg: string, r: Reg, bit: Option<nat>, text: string)
    requires ParseRequest(regs, arg) == Assign(r, bit, text)
    ensures AtCommand(regs, s, arg) == WriteReg(s, r, bit, text)
  {
  }

  /** A query changes nothing and fails exactly for a bit of a register that is no number. */
  lemma QueryAnswer(regs: Table, s: Store, arg: string, id: nat, bit: Option<nat>)
    requires Asks(regs, arg, id, bit, "?")
    ensures AtCommand(regs, s, arg) == (s, if bit.Some? && !Numeric(regs[id]) then AT_ERR_INVALID_PARAM else AT_OK)
  {
    NamedRequest(regs, arg, id, bit, "?");
  }

  /** Two or three hex digits, and no more, that name a register. */
  predicate Named(regs: Table, arg: string, id: nat, bit: Option<nat>) {
    var n := if bit.None? then 2 else 3;
    |arg| >= n && Asks(regs, arg, id, bit, arg[n..]) && (|arg| > n ==> HexNibble(arg[n]) < 0)
  }

  /** Every other command is refused for its register, and one without `?` or `=` behind the digits for its syntax. */
  lemma RefusedRequest(regs: Table, s: Store, arg: string)
    ensures ParseRequest(regs, arg).BadReg? <==> forall id: nat, bit: Option<nat> :: !Named(regs, arg, id, bit)
    ensures ParseRequest(regs, arg).BadReg? ==> AtCommand(regs, s, arg) == (s, AT_ERR_INVALID_SREG)
    ensures ParseRequest(regs, arg).BadSyntax? ==> AtCommand(regs, s, arg) == (s, AT_ERR_INVALID_PARAM)
  {
    if id: nat, bit: Option<nat> :| Named(regs, arg, id, bit) {
      NamedIsKnown(regs, arg, id, bit);
    }
    if !ParseRequest(regs, arg).BadReg? {
      var n := HexRun(arg);
      if n == 3 {
        ThirdDigit(arg);
      }
      HexRunHex(arg);
      assert Named(regs, arg, ParseHexN(arg[..2]).value, if n == 3 then ParseHexN(arg[2..3]) else None);
    }
  }

  lemma NamedIsKnown(regs: Table, arg: string, id: nat, bit: Option<nat>)
    requires Named(regs, arg, id, bit)
    ensures !ParseRequest(regs, arg).BadReg?
  {
    var n := if bit.None? then 2 else 3;
    HexValDefined(arg[..2]);
    if bit.Some? {
      HexValDefined(arg[2..3]);
    }
    assert arg[..n] == arg[..2] + arg[2..n];
    assert arg == arg[..n] + arg[n..];
    HexRunOf(arg[..n], arg[n..]);
  }

  predicate Known(s: Store, r: Reg, given: Option<string>) {
    r.pw ==> given == Some(Val(s, PASSWORD))
  }

  lemma WriteRegAnswer(regs: Table, s: Store, r: Reg, bit: Option<nat>, text: string)
    requires GoodTable(regs) && Inv(regs, s) && r.id in regs && regs[r.id] == r
    ensures var (value, given) := SplitArg(text); var (t, err) := WriteReg(s, r, bit, text);
            && (err == AT_ERR_READ_ONLY <==> r.ro)
            && (err == AT_ERR_BAD_PASSWORD <==> !r.ro && !Known(s, r, given))
            && (err == AT_OK <==> !r.ro && Known(s, r, given) && Writable(s, r, bit, value))
            && (err == AT_ERR_INVALID_PARAM <==> !r.ro && Known(s, r, given) && !Writable(s, r, bit, value))
            && (err != AT_OK ==> t == s)
  {
    WriteCode(s, r, bit, text);
    if !r.ro && Known(s, r, SplitArg(text).1) {
      if bit.None? {
        WholeAnswer(s, r, text);
      } else {
        BitAnswer(regs, s, r, bit.value, text);
      }
    }
  }

  lemma WholeAnswer(s: Store, r: Reg, text: string)
    requires !r.ro && Known(s, r, SplitArg(text).1) && r.kind != Dyn
    ensures WriteReg(s, r, None, text).1 == if Takes(r, SplitArg(text).0) then AT_OK else AT_ERR_INVALID_PARAM
  {
    NormaliseExactly(r, SplitArg(text).0);
  }

  lemma BitAnswer(regs: Table, s: Store, r: Reg, b: nat, text: string)
    requires GoodTable(regs) && Inv(regs, s) && r.id in regs && regs[r.id] == r
    requires !r.ro && Known(s, r, SplitArg(text).1)
    ensures WriteReg(s, r, Some(b), text).1 ==
            if Writable(s, r, Some(b), SplitArg(text).0) then AT_OK else AT_ERR_INVALID_PARAM
  {
    var value := SplitArg(text).0;
    if Numeric(r) && (value == "0" || value == "1") {
      BitWriteAccepted(regs, s, r, b, text);
      NormaliseExactly(r, FmtX(Digits(r), SetBit(U32(Val(s, r.id)), b, value == "1")));
    }
  }

  lemma WriteCode(s: Store, r: Reg, bit: Option<nat>, text: string)
    ensures var (t, err) := WriteReg(s, r, bit, text);
            && (err != AT_OK ==> t == s)
            && (r.ro ==> err == AT_ERR_READ_ONLY)
            && (!r.ro && r.pw && SplitArg(text).1 != Some(Val(s, PASSWORD)) ==> err == AT_ERR_BAD_PASSWORD)
  {
  }

  // ------------------------------------------------------------ bit writes

  /** The number with the bit changed, as it is printed and validated. */
  lemma BitValue(r: Reg, v: nat)
    requires Numeric(r) && Normalise(r, FmtX(Digits(r), v)).Ok?
    ensures U32(Normalise(r, FmtX(Digits(r), v)).value) == v < Pow16(Digits(r))
  {
    var text := FmtX(Digits(r), v);
    HexValOfFmtX(Digits(r), v);
    NumberIdempotent(r, text);
    HexValDefined(Normalise(r, text).value);
  }

  lemma BitsAfter(before: nat, bit: nat, on: bool)
    ensures forall c :: BitOf(SetBit(before, bit, on), c) ==
                        if c == bit then (if on then 1 else 0) else BitOf(before, c)
  {
    forall c: nat
      ensures BitOf(SetBit(before, bit, on), c) == if c == bit then (if on then 1 else 0) else BitOf(before, c)
    {
      SetBitChangesOne(before, bit, on, c);
    }
  }

  lemma BitWriteStores(s: Store, r: Reg, bit: nat, arg: string)
    requires WriteReg(s, r, Some(bit), arg).1 == AT_OK
    ensures Numeric(r)
    ensures var text := FmtX(Digits(r), SetBit(U32(Val(s, r.id)), bit, SplitArg(arg).0 == "1"));
            Normalise(r, text).Ok? && Val(WriteReg(s, r, Some(bit), arg).0, r.id) == Normalise(r, text).value
  {
  }

  /** A bit write that succeeds changes exactly that bit, if it is one of the register's, and else nothing. */
  lemma BitWriteMeaning(s: Store, r: Reg, bit: nat, arg: string)
    requires WriteReg(s, r, Some(bit), arg).1 == AT_OK
    ensures var on := SplitArg(arg).0 == "1";
            var before, after := U32(Val(s, r.id)), U32(Val(WriteReg(s, r, Some(bit), arg).0, r.id));
            && after == SetBit(before, bit, on) && after < Pow16(Digits(r))
            && (forall c :: BitOf(after, c) == if c == bit then (if on then 1 else 0) else BitOf(before, c))
  {
    var on, before := SplitArg(arg).0 == "1", U32(Val(s, r.id));
    BitWriteStores(s, r, bit, arg);
    BitValue(r, SetBit(before, bit, on));
    BitsAfter(before, bit, on);
  }

  /** Bit 4 of S12, and no other, switches the echo: ATS124=1 turns it off, ATS124=0 on. */
  lemma EchoSwitched(s: Store, r: Reg, bit: nat, arg: string)
    requires r.id == 0x12 && WriteReg(s, r, Some(bit), arg).1 == AT_OK
    ensures var t := WriteReg(s, r, Some(bit), arg).0;
            EchoOn(t.vals) <==> if bit == 4 then SplitArg(arg).0 == "0" else EchoOn(s.vals)
  {
    BitWriteMeaning(s, r, bit, arg);
  }

  /** A bit write of 0 or 1 that gets past the flags succeeds exactly when its text validates. */
  lemma BitWriteValidates(s: Store, r: Reg, bit: nat, arg: string)
    requires Numeric(r) && !r.ro && SplitArg(arg).0 in {"0", "1"}
    requires r.pw ==> SplitArg(arg).1 == Some(Val(s, PASSWORD))
    ensures WriteReg(s, r, Some(bit), arg).1 == AT_OK <==>
            Normalise(r, FmtX(Digits(r), SetBit(U32(Val(s, r.id)), bit, SplitArg(arg).0 == "1"))).Ok?
  {
  }

  /**
   A bit write of 0 or 1 that gets past the flags is refused exactly when it sets a bit the register does not
   have, or would take S12 off 115200 baud.
   */
  lemma BitWriteAccepted(regs: Table, s: Store, r: Reg, bit: nat, arg: string)
    requires GoodTable(regs) && Inv(regs, s) && r.id in regs && regs[r.id] == r && Numeric(r) && !r.ro
    requires SplitArg(arg).0 in {"0", "1"} && (r.pw ==> SplitArg(arg).1 == Some(Val(s, PASSWORD)))
    ensures var on := SplitArg(arg).0 == "1";
            WriteReg(s, r, Some(bit), arg).1 == AT_OK <==>
            (bit < 4 * Digits(r) || !on) && (r.id == 0x12 ==> SetBit(U32(Val(s, r.id)), bit, on) / 256 == 0x0C)
  {
    BitWriteValidates(s, r, bit, arg);
    BitTextFits(r, Val(s, r.id), bit, SplitArg(arg).0 == "1");
  }

  lemma BitTextFits(r: Reg, val: string, bit: nat, on: bool)
    requires Numeric(r) && Canonical(r, val)
    ensures var v := SetBit(U32(val), bit, on);
            Normalise(r, FmtX(Digits(r), v)).Ok? <==> (bit < 4 * Digits(r) || !on) && (r.id == 0x12 ==> v / 256 == 0x0C)
  {
    var v, text := SetBit(U32(val), bit, on), FmtX(Digits(r), SetBit(U32(val), bit, on));
    NumberInRange(r, val);
    PowersOf2();
    SetBitRange(U32(val), bit, on, 4 * Digits(r));
    FmtXWidth(Digits(r), v);
    if v < Pow16(Digits(r)) {
      HexValOfFmtX(Digits(r), v);
      assert ParseHexN(text) == Some(v);
    }
  }

  lemma NumberInRange(r: Reg, val: string)
    requires Numeric(r) && Canonical(r, val)
    ensures U32(val) < Pow16(Digits(r))
  {
    NumberIdempotent(r, val);
    HexValDefined(val);
  }

  // ------------------------------------------------------------ what was written is what is read

  lemma ReadNow(s: Store, r: Reg, arg: string)
    requires '\0' !in arg && r.maxLen < VAL_MAX && r.kind != Dyn && WriteReg(s, r, None, arg).1 == AT_OK
    ensures var t := WriteReg(s, r, None, arg).0;
            && Read(r, Val(t, r.id)) == Written(r, SplitArg(arg).0)
            && (forall id :: id != r.id ==> Val(t, id) == Val(s, id))
  {
    WrittenCanonical(s, r, None, arg);
    NormaliseMeaning(r, SplitArg(arg).0);
  }

  /**
   After a write of a whole value, the firmware's reader of the register gives what was written, in this boot
   and, for a register kept in flash, after a reset; no other register changes.
   */
  lemma WrittenIsRead(regs: Table, s: Store, r: Reg, arg: string)
    requires GoodTable(regs) && Inv(regs, s) && r.id in regs && regs[r.id] == r && '\0' !in arg
    requires WriteReg(s, r, None, arg).1 == AT_OK
    ensures var t := WriteReg(s, r, None, arg).0;
            && Read(r, Val(t, r.id)) == Written(r, SplitArg(arg).0)
            && (forall id :: id != r.id ==> Val(t, id) == Val(s, id))
            && (r.nv ==> Val(Boot(regs, t.flash), r.id) == Val(t, r.id))
  {
    ReadNow(s, r, arg);
    WriteKeeps(regs, s, r, None, arg);
    if r.nv {
      Restored(regs, WriteReg(s, r, None, arg).0, r.id);
    }
  }

  lemma Restored(regs: Table, s: Store, id: nat)
    requires GoodTable(regs) && Inv(regs, s) && id in regs && regs[id].nv
    ensures Val(Boot(regs, s.flash), id) == Val(s, id)
  {
    RestartRestores(regs, s);
  }

  // ------------------------------------------------------------ the password

  /** A command that writes register `id` and carries this text after its value. */
  predicate Carries(regs: Table, e: Event, id: nat, password: string) {
    && e.Command? && ParseRequest(regs, e.arg).Assign?
    && ParseRequest(regs, e.arg).r.id == id
    && SplitArg(ParseRequest(regs, e.arg).arg).1 == Some(password)
  }

  lemma WriteNeedsPassword(s: Store, r: Reg, bit: Option<nat>, arg: string, id: nat)
    requires r.id == id ==> r.pw
    requires Val(WriteReg(s, r, bit, arg).0, id) != Val(s, id)
    ensures r.id == id && SplitArg(arg).1 == Some(Val(s, PASSWORD))
  {
  }

  lemma StepNeedsPassword(regs: Table, s: Store, e: Event, id: nat)
    requires GoodTable(regs) && Inv(regs, s) && id in NvIds(regs) && regs[id].pw && !e.Factory?
    requires Val(Apply(regs, s, e), id) != Val(s, id)
    ensures Carries(regs, e, id, Val(s, PASSWORD))
  {
    if e.Restart? {
      RestartRestores(regs, s);
    } else {
      var q := ParseRequest(regs, e.arg);
      if q.Assign? {
        RequestReg(regs, e.arg);
        WriteNeedsPassword(s, q.r, q.bit, q.arg, id);
      }
    }
  }

  /** The command at index `i` of a run writes register `id` with the password valid at that moment. */
  predicate CarriesAt(regs: Table, s: Store, es: seq<Event>, id: nat, i: nat) {
    i < |es| && Carries(regs, es[i], id, Val(RunFrom(regs, s, es[..i]), PASSWORD))
  }

  lemma CarriesLater(regs: Table, s: Store, es: seq<Event>, id: nat, i: nat)
    requires es != [] && CarriesAt(regs, Apply(regs, s, es[0]), es[1..], id, i)
    ensures CarriesAt(regs, s, es, id, i + 1)
  {
    assert es[..i + 1][1..] == es[1..][..i];
  }

  /** No factory reset from this position on. */
  predicate Kept(es: seq<Event>, from: nat) {
    forall i :: from <= i < |es| ==> !es[i].Factory?
  }

  /** A command with the password, and no factory reset behind it. */
  predicate Changed(regs: Table, s: Store, es: seq<Event>, id: nat, i: nat) {
    CarriesAt(regs, s, es, id, i) && Kept(es, i)
  }

  /** What a protected register holds when nobody knows the password. */
  function Base(regs: Table, val: string, es: seq<Event>, id: nat): string {
    if Kept(es, 0) then val else if id in regs then regs[id].def else ""
  }

  /**
   After any run of commands, resets and factory resets, a password-protected register holds what it held before,
   or its default if there was a factory reset, unless since then a command wrote that register and carried the
   password valid at that moment.
   */
  lemma {:induction false} PasswordProtects(regs: Table, s: Store, es: seq<Event>, id: nat)
    requires GoodTable(regs) && Inv(regs, s) && id in NvIds(regs) && regs[id].pw && CStrings(es)
    ensures Val(RunFrom(regs, s, es), id) == Base(regs, Val(s, id), es, id) || exists i :: Changed(regs, s, es, id, i)
    decreases |es|
  {
    if es != [] {
      var t, rest := Apply(regs, s, es[0]), es[1..];
      RestKept(es);
      StepKeepsInv(regs, s, es[0]);
      PasswordProtects(regs, t, rest, id);
      if i :| Changed(regs, t, rest, id, i) {
        ChangedLater(regs, s, es, id, i);
      } else if es[0].Factory? {
        FactoryDefaults(regs, s, id);
      } else if Kept(rest, 0) && Val(t, id) != Val(s, id) {
        StepNeedsPassword(regs, s, es[0], id);
        FirstChanges(regs, s, es, id);
      }
    }
  }

  lemma RestKept(es: seq<Event>)
    requires es != [] && CStrings(es)
    ensures Kept(es, 0) <==> Kept(es[1..], 0) && !es[0].Factory?
    ensures CStrings(es[1..]) && (es[0].Command? ==> '\0' !in es[0].arg)
  {
    if Kept(es[1..], 0) {
      assert forall i :: 0 < i < |es| ==> es[i] == es[1..][i - 1];
    }
  }

  lemma ChangedLater(regs: Table, s: Store, es: seq<Event>, id: nat, i: nat)
    requires es != [] && Changed(regs, Apply(regs, s, es[0]), es[1..], id, i)
    ensures Changed(regs, s, es, id, i + 1)
  {
    CarriesLater(regs, s, es, id, i);
    assert forall k :: i + 1 <= k < |es| ==> es[k] == es[1..][k - 1];
  }

  lemma FactoryDefaults(regs: Table, s: Store, id: nat)
    requires GoodTable(regs) && id in NvIds(regs)
    ensures Val(FactoryReset(regs, s), id) == regs[id].def
  {
    PairsNv(regs);
  }

  lemma FirstChanges(regs: Table, s: Store, es: seq<Event>, id: nat)
    requires es != [] && Carries(regs, es[0], id, Val(s, PASSWORD)) && Kept(es, 0)
    ensures Changed(regs, s, es, id, 0)
  {
    assert es[..0] == [];
  }

  /** And in every reachable state the right password is accepted, whatever it is. */
  lemma PasswordAccepted(s: Store, r: Reg, value: string)
    requires !r.ro && ':' !in value && Normalise(r, value).Ok?
    ensures var (t, err) := WriteReg(s, r, None, value + ":" + Val(s, PASSWORD));
            && err == AT_OK && Val(t, r.id) == Normalise(r, value).value
            && forall id :: id != r.id ==> Val(t, id) == Val(s, id)
  {
    SplitAtColon(value, Val(s, PASSWORD));
  }

  lemma SplitAtColon(value: string, password: string)
    requires ':' !in value
    ensures SplitArg(value + ":" + password) == (value, Some(password))
  {
    var arg := value + ":" + password;
    assert arg[|value|] == ':' && forall k :: 0 <= k < |value| ==> arg[k] == value[k];
    assert IndexOf(arg, ':') == |value|;
    assert arg[..|value|] == value && arg[|value| + 1..] == password;
  }

  // ------------------------------------------------------------ the table in RAM

  /** A list and a table of the same registers. */
  predicate Listed(list: seq<Reg>, regs: Table) {
    && (forall k :: 0 <= k < |list| ==> list[k].id in regs && regs[list[k].id] == list[k])
    && (forall id :: id in regs ==> regs[id] in list && regs[id].id == id)
  }

  lemma TableListed(list: seq<Reg>)
    requires Ascending(list)
    ensures Listed(list, TableOf(list))
  {
    TableOfKeeps(list);
  }

  /** A settings key below at/s, as `key_of` prints it, is read back; a longer one is no key of a register. */
  lemma KeyRead(id: nat)
    ensures |FmtX(2, id)| == 2 <==> id < 0x100
    ensures id < 0x100 ==> ParseHexN(FmtX(2, id)) == Some(id)
  {
    PowersOf16();
    FmtXWidth(2, id);
    HexValOfFmtX(2, id);
  }

  /** `load_cb`. */
  function LoadKey(vals: map<nat, string>, key: string, bytes: string): map<nat, string> {
    if |key| != 2 then vals
    else
      match ParseHexN(key)
      case None => vals
      case Some(id) => LoadId(vals, id, bytes)
  }

  function LoadId(vals: map<nat, string>, id: nat, bytes: string): map<nat, string> {
    if id in vals && Loaded(bytes, VAL_MAX).Some? then vals[id := Loaded(bytes, VAL_MAX).value] else vals
  }

  predicate ByteIds(vals: map<nat, string>) {
    forall id :: id in vals ==> id < 0x100
  }

  lemma KeyIsId(vals: map<nat, string>, id: nat, bytes: string)
    requires ByteIds(vals)
    ensures LoadKey(vals, FmtX(2, id), bytes) == LoadId(vals, id, bytes)
  {
    KeyRead(id);
  }

  /** The keys in `left` are still to be loaded. */
  predicate Loading(before: map<nat, string>, flash: map<nat, string>, left: set<nat>, vals: map<nat, string>) {
    && vals.Keys == before.Keys
    && forall id :: id in vals ==> vals[id] == if id in left then before[id] else Overlay(before, flash)[id]
  }

  lemma LoadingNext(before: map<nat, string>, flash: map<nat, string>, left: set<nat>, vals: map<nat, string>, id: nat)
    requires Loading(before, flash, left, vals) && id in left && id in flash
    ensures Loading(before, flash, left - {id}, LoadId(vals, id, flash[id]))
  {
  }

  /** Bit 4 of S12 switches the echo off. */
  predicate EchoOn(vals: map<nat, string>) {
    BitOf(U32(At(vals, 0x12)), 4) == 0
  }

  /**
   `regs[]` with its values, and the settings below at/s; `regs` names the same registers by ID. `echoOn` is the
   switch of the UART, `hooks` the calls of `sreg_written`.
   */
  class Registers {
    const list: seq<Reg>
    const regs: Table
    var vals: map<nat, string>
    var flash: map<nat, string>
    var echoOn: bool
    var hooks: seq<nat>

    function View(): Store
      reads this
    {
      Store(vals, flash)
    }

    predicate Valid()
      reads this
    {
      Listed(list, regs) && vals.Keys == regs.Keys && ByteIds(vals)
    }

    constructor ()
      ensures Valid() && list == REG_LIST && regs == REGS && flash == map[] && echoOn && hooks == []
    {
      list := REG_LIST;
      regs := REGS;
      vals := map id | id in REGS :: "";
      flash, echoOn, hooks := map[], true, [];
      ListGood();
      TableListed(REG_LIST);
    }

    /** `find`. */
    method FindReg(id: nat) returns (r: Option<Reg>)
      requires Valid()
      ensures r == if id in regs then Some(regs[id]) else None
    {
      for i := 0 to |list|
        invariant forall k :: 0 <= k < i ==> list[k].id != id
      {
        if list[i].id == id {
          return Some(list[i]);
        }
      }
      r := None;
    }

    /** `load_defaults`. */
    method LoadDefaults()
      requires Valid()
      modifies this`vals
      ensures Valid() && vals == Defaults(regs)
    {
      for i := 0 to |list|
        invariant Valid()
        invariant forall k :: 0 <= k < i ==> vals[list[k].id] == list[k].def
      {
        vals := vals[list[i].id := list[i].def];
      }
      forall id | id in vals
        ensures vals[id] == regs[id].def
      {
        var k :| 0 <= k < |list| && list[k] == regs[id];
      }
    }

    /** `load_cb`, called for one settings key, the text behind at/s. */
    method LoadOne(key: string, bytes: string)
      requires Valid()
      modifies this`vals
      ensures Valid() && vals == LoadKey(old(vals), key, bytes)
    {
      if |key| != 2 {
        return;
      }
      var id := AtParseHexN(key, 2);
      assert key[..2] == key;
      if id.None? {
        return;
      }
      var r := FindReg(id.value);
      if r.None? || |bytes| > VAL_MAX {
        return;
      }
      if |bytes| > 0 {
        vals := vals[id.value := CString(bytes[..|bytes| - 1] + "\0")];
      }
    }

    /** The settings code calls back once per key, in any order. */
    method LoadAll()
      requires Valid()
      modifies this`vals
      ensures Valid() && vals == Overlay(old(vals), flash)
    {
      ghost var before := vals;
      var left := flash.Keys;
      while left != {}
        invariant Valid() && left <= flash.Keys && Loading(before, flash, left, vals)
        decreases |left|
      {
        var id :| id in left;
        LoadingNext(before, flash, left, vals, id);
        KeyIsId(vals, id, flash[id]);
        LoadOne(FmtX(2, id), flash[id]);
        left := left - {id};
      }
    }

    /** `apply_side_effects`. */
    method ApplySideEffects(id: nat)
      modifies this`echoOn
      ensures echoOn == if id == 0x12 then EchoOn(vals) else old(echoOn)
    {
      if id == 0x12 {
        echoOn := BitOf(U32(At(vals, 0x12)), 4) == 0;
      }
    }

    /** `sreg_init`. */
    method Init()
      requires Valid() && 0x40 in regs && 0x42 in regs && 0x44 in regs
      modifies this`vals, this`echoOn
      ensures Valid() && View() == Boot(regs, flash) && echoOn == EchoOn(vals)
    {
      LoadDefaults();
      LoadAll();
      StartVolatile();
      ApplySideEffects(0x12);
    }

    /** `init_volatile`. */
    method StartVolatile()
      requires Valid() && 0x40 in regs && 0x42 in regs && 0x44 in regs
      modifies this`vals
      ensures Valid() && vals == InitVolatile(old(vals))
    {
      var v41, v43, v45 := At(vals, 0x41), At(vals, 0x43), At(vals, 0x45);
      vals := vals[0x40 := v41];
      vals := vals[0x42 := v43];
      vals := vals[0x44 := v45];
    }

    /** The deletions of a factory reset. */
    method DeleteKeys()
      requires Valid()
      modifies this`flash
      ensures flash == old(flash) - NvIds(regs)
    {
      for i := 0 to |list|
        invariant flash.Keys <= old(flash).Keys && forall id :: id in flash ==> flash[id] == old(flash)[id]
        invariant forall id :: id in old(flash) && id !in flash ==> id in NvIds(regs)
        invariant forall k :: 0 <= k < i && list[k].nv ==> list[k].id !in flash
      {
        if list[i].nv {
          flash := flash - {list[i].id};
        }
      }
      forall id | id in NvIds(regs)
        ensures id !in flash
      {
        var k :| 0 <= k < |list| && list[k] == regs[id];
      }
    }

    /** `sreg_factory_reset`. */
    method Factory()
      requires Valid() && 0x40 in regs && 0x42 in regs && 0x44 in regs
      modifies this`vals, this`flash
      ensures Valid() && View() == FactoryReset(regs, old(View()))
    {
      DeleteKeys();
      LoadDefaults();
      StartVolatile();
    }

    /** The end of a successful `write_reg`. */
    method Keep(r: Reg, out: string)
      requires Valid() && r.id in vals
      modifies this
      ensures Valid() && vals == old(vals)[r.id := out]
      ensures flash == if r.nv then old(flash)[r.id := Stored(out)] else old(flash)
      ensures hooks == old(hooks) + [r.id]
      ensures old(echoOn == EchoOn(vals)) ==> echoOn == EchoOn(vals)
    {
      vals := vals[r.id := out];
      if r.nv {
        flash := flash[r.id := Stored(out)];
      }
      ApplySideEffects(r.id);
      hooks := hooks + [r.id];
    }

    /** `write_reg`. */
    method Write(r: Reg, bit: Option<nat>, arg: string) returns (err: int)
      requires Valid() && r.id in vals
      modifies this
      ensures Valid() && (View(), err) == WriteReg(old(View()), r, bit, arg)
      ensures hooks == if err == AT_OK then old(hooks) + [r.id] else old(hooks)
      ensures old(echoOn == EchoOn(vals)) ==> echoOn == EchoOn(vals)
    {
      if r.ro {
        return AT_ERR_READ_ONLY;
      }
      var (value, given) := SplitArg(arg);
      if r.pw && given != Some(At(vals, PASSWORD)) {
        return AT_ERR_BAD_PASSWORD;
      }
      if bit.Some? {
        var v := U32(At(vals, r.id));
        if !Numeric(r) || (value != "0" && value != "1") {
          return AT_ERR_INVALID_PARAM;
        }
        v := SetBit(v, bit.value, value[0] == '1');
        value := FmtX(Digits(r), v);
      }
      var out := NormaliseText(r, value);
      if out.Err? {
        return out.code;
      }
      Keep(r, out.value);
      err := AT_OK;
    }

    /** The digits in front. */
    method CountHex(arg: string) returns (n: nat)
      ensures n == HexRun(arg)
    {
      n := 0;
      while n < |arg| && HexNibble(arg[n]) >= 0
        invariant n <= |arg| && HexRun(arg) == n + HexRun(arg[n..])
      {
        assert arg[n..][1..] == arg[n + 1..];
        n := n + 1;
      }
    }

    /** `sreg_at_command` on what follows "ATS". */
    method Command(arg: string) returns (err: int)
      requires Valid()
      modifies this
      ensures Valid() && (View(), err) == AtCommand(regs, old(View()), arg)
      ensures var q := ParseRequest(regs, arg);
              hooks == if q.Assign? && err == AT_OK then old(hooks) + [q.r.id] else old(hooks)
      ensures old(echoOn == EchoOn(vals)) ==> echoOn == EchoOn(vals)
    {
      var n := CountHex(arg);
      if n != 2 && n != 3 {
        return AT_ERR_INVALID_SREG;
      }
      var id := AtParseHexN(arg, 2);
      if id.None? {
        return AT_ERR_INVALID_SREG;
      }
      var found := FindReg(id.value);
      if found.None? {
        return AT_ERR_INVALID_SREG;
      }
      var r := found.value;
      var bit: Option<nat> := None;
      if n == 3 {
        bit := AtParseHexN(arg[2..], 1);
        assert arg[2..][..1] == arg[2..3];
      }
      if arg[n..] == "?" {
        return if bit.Some? && !Numeric(r) then AT_ERR_INVALID_PARAM else AT_OK;
      }
      if n < |arg| && arg[n] == '=' {
        err := Write(r, bit, arg[n + 1..]);
        return;
      }
      err := AT_ERR_INVALID_PARAM;
    }
  }
}
