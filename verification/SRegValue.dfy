/**
 Values of S-registers, app/src/sreg.c: validation to a canonical text, the typed readers, and single bits
 of a number.
 */
module SRegValue {
  import opened Wrappers
  import opened AtResults
  import opened AtFmt
  import opened CText
  import opened Streams

  const VAL_MAX := 48

  datatype Kind = U8 | U16 | S8 | Hex64 | Key128 | Str | Clusters | Dyn

  /** struct sreg without its value; `nv`, `ro`, `pw` are the flags F_NV, F_RO, F_PW. */
  datatype Reg = Reg(id: nat, kind: Kind, nv: bool, ro: bool, pw: bool, maxLen: nat, def: string)

  // ------------------------------------------------------------ validation

  predicate Numeric(r: Reg) {
    r.kind == U8 || r.kind == U16
  }

  function Digits(r: Reg): nat {
    match r.kind
    case U8 => 2
    case U16 => 4
    case Hex64 => 16
    case Key128 => 32
    case _ => 0
  }

  /** `%02ld` of -40..8, with the sign in front. */
  function Pad2(d: int): string
    requires -100 < d < 100
  {
    var a := if d < 0 then -d else d;
    (if d < 0 then "-" else "") + [DigitChar(a / 10), DigitChar(a % 10)]
  }

  /** A 4-digit entry, then the end or a comma with something behind it. */
  predicate EntryFirst(p: string) {
    |p| >= 4 && AllHex(p[..4]) && (|p| > 4 ==> p[4] == ',' && |p| > 5)
  }

  /** What follows the first entry. */
  function AfterEntry(p: string): string
    requires EntryFirst(p)
  {
    if |p| > 4 then p[5..] else ""
  }

  /** What stands in front of an entry. */
  function Comma(needed: bool): string {
    if needed then "," else ""
  }

  /** The list loop: `count` entries are done, `p` is what is left of the input. */
  function NormClusters(p: string, count: nat): (r: Result<string>)
    ensures r.Err? ==> r.code == AT_ERR_INVALID_PARAM
    decreases |p|
  {
    if p == "" then Ok("")
    else if count == SREG_MAX_CLUSTERS || !EntryFirst(p) then Err(AT_ERR_INVALID_PARAM)
    else
      match ParseHexN(p[..4])
      case None => Err(AT_ERR_INVALID_PARAM)
      case Some(v) =>
        match NormClusters(AfterEntry(p), count + 1)
        case Err(e) => Err(e)
        case Ok(rest) => Ok(Comma(count > 0) + FmtX(4, v) + rest)
  }

  /** `normalise`. */
  function Normalise(r: Reg, input: string): Result<string> {
    match r.kind
    case U8 => NormNumber(r, input)
    case U16 => NormNumber(r, input)
    case S8 =>
      var (d, end) := Strtol(input);
      if input == "" || end != |input| || d < -40 || d > 8 then Err(AT_ERR_INVALID_PARAM) else Ok(Pad2(d))
    case Hex64 => NormHex(r, input)
    case Key128 => NormHex(r, input)
    case Str => if |input| > r.maxLen then Err(AT_ERR_INVALID_PARAM) else Ok(input)
    case Clusters => NormClusters(input, 0)
    case Dyn => Err(AT_ERR_READ_ONLY)
  }

  function NormNumber(r: Reg, input: string): Result<string> {
    if input == "" || |input| > Digits(r) then Err(AT_ERR_INVALID_PARAM)
    else
      match ParseHexN(input)
      case None => Err(AT_ERR_INVALID_PARAM)
      case Some(v) => if r.id == 0x12 && v / 256 != 0x0C then Err(AT_ERR_INVALID_PARAM) else Ok(FmtX(Digits(r), v))
  }

  function NormHex(r: Reg, input: string): Result<string> {
    if |input| != Digits(r) || !AllHex(input) then Err(AT_ERR_INVALID_PARAM) else Ok(ToUpper(input))
  }

  // ------------------------------------------------------------ the canonical form

  lemma NumberFits(width: nat, input: string)
    requires 1 <= |input| <= width <= 4 && AllHex(input)
    ensures ParseHexN(input).Some? && ParseHexN(input).value < Pow16(width)
    ensures |FmtX(width, ParseHexN(input).value)| == width
  {
    HexValDefined(input);
    Pow16Monotone(|input|, width);
    FmtXWidth(width, ParseHexN(input).value);
  }

  lemma NumberIdempotent(r: Reg, input: string)
    requires Numeric(r) && NormNumber(r, input).Ok?
    ensures var out := NormNumber(r, input).value;
            && NormNumber(r, out) == Ok(out) && |out| == Digits(r) && UpperHex(out)
            && HexVal(out) == HexVal(input) && HexVal(out).Some?
  {
    HexValDefined(input);
    NumberFits(Digits(r), input);
    var v := HexVal(input).value;
    HexValOfFmtX(Digits(r), v);
  }

  lemma TwoDigitsValue(tens: nat, ones: nat)
    requires tens < 10 && ones < 10
    ensures AllDigits([DigitChar(tens), DigitChar(ones)])
    ensures DecVal([DigitChar(tens), DigitChar(ones)]) == 10 * tens + ones
  {
    var digits := [DigitChar(tens), DigitChar(ones)];
    assert digits[..1] == [DigitChar(tens)] && digits[..1][..0] == "";
    assert DecVal(digits[..1]) == tens;
  }

  lemma Pad2Read(d: int)
    requires -40 <= d <= 8
    ensures Strtol(Pad2(d)) == (d, |Pad2(d)|) && 2 <= |Pad2(d)| <= 3
  {
    var sign, digits := Pad2Parts(d);
    DigitsRead(sign, digits, if d < 0 then -d else d);
  }

  lemma Pad2Parts(d: int) returns (sign: string, digits: string)
    requires -40 <= d <= 8
    ensures sign == (if d < 0 then "-" else "") && Pad2(d) == sign + digits
    ensures |digits| == 2 && AllDigits(digits) && DecVal(digits) == if d < 0 then -d else d
  {
    var a := if d < 0 then -d else d;
    sign, digits := if d < 0 then "-" else "", [DigitChar(a / 10), DigitChar(a % 10)];
    TwoDigitsValue(a / 10, a % 10);
  }

  lemma DigitsRead(sign: string, digits: string, v: nat)
    requires (sign == "-" || sign == "") && digits != "" && AllDigits(digits) && DecVal(digits) == v
    ensures Strtol(sign + digits) == (if sign == "-" then -(v as int) else v, |sign + digits|)
  {
    StrtolWhole(sign, digits);
  }

  lemma SignedKept(r: Reg, d: int)
    requires r.kind == S8 && -40 <= d <= 8
    ensures Normalise(r, Pad2(d)) == Ok(Pad2(d)) && |Pad2(d)| <= 3
  {
    Pad2Read(d);
  }

  lemma UpperIdempotent(s: string)
    requires AllHex(s)
    ensures UpperHex(ToUpper(s)) && AllHex(ToUpper(s)) && ToUpper(ToUpper(s)) == ToUpper(s)
    ensures forall i :: 0 <= i < |s| ==> HexNibble(ToUpper(s)[i]) == HexNibble(s[i])
  {
  }

  /** Upper-case hex of the right length is its own canonical form. */
  lemma UpperUnchanged(s: string)
    requires UpperHex(s)
    ensures ToUpper(s) == s
  {
  }

  // ------------------------------------------------------------ cluster lists

  /** The 16-bit IDs a list text stands for: `None` unless it is 4-digit fields separated by single commas. */
  function ListVal(p: string): Option<seq<nat>>
    decreases |p|
  {
    if p == "" then Some([])
    else if !EntryFirst(p) then None
    else
      match (HexVal(p[..4]), ListVal(AfterEntry(p)))
      case (Some(v), Some(rest)) => Some([v] + rest)
      case _ => None
  }

  /** A list printed: `%04X` of each, commas between. */
  function ListText(ids: seq<nat>): string {
    if ids == [] then "" else if |ids| == 1 then FmtX(4, ids[0]) else FmtX(4, ids[0]) + "," + ListText(ids[1..])
  }

  predicate Ids16(ids: seq<nat>) {
    forall i :: 0 <= i < |ids| ==> ids[i] < 0x1_0000
  }

  lemma EntryValue(p: string)
    requires EntryFirst(p)
    ensures p != "" && ParseHexN(p[..4]) == HexVal(p[..4]) && HexVal(p[..4]).Some? && HexVal(p[..4]).value < 0x1_0000
  {
    HexValDefined(p[..4]);
    PowersOf16();
  }

  lemma {:induction false} NormClustersAccepts(p: string, count: nat)
    requires count <= SREG_MAX_CLUSTERS
    ensures NormClusters(p, count).Ok? <==> ListVal(p).Some? && count + |ListVal(p).value| <= SREG_MAX_CLUSTERS
    ensures ListVal(p).Some? ==> Ids16(ListVal(p).value) && (ListVal(p).value == [] <==> p == "")
    decreases |p|
  {
    if EntryFirst(p) {
      EntryValue(p);
      NormClustersAccepts(AfterEntry(p), if count < SREG_MAX_CLUSTERS then count + 1 else count);
    }
  }

  lemma TextStep(id: nat, rest: seq<nat>)
    ensures ListText([id] + rest) == FmtX(4, id) + (Comma(rest != []) + ListText(rest))
  {
    var ids := [id] + rest;
    assert ids[1..] == rest;
    if rest == [] {
      Nothing(FmtX(4, id));
      Nothing("");
    } else {
      Regroup(FmtX(4, id), ",", ListText(rest));
    }
  }

  lemma {:induction false} NormClustersPrints(p: string, count: nat)
    requires NormClusters(p, count).Ok? && ListVal(p).Some? && count <= SREG_MAX_CLUSTERS
    ensures NormClusters(p, count).value == Comma(count > 0 && p != "") + ListText(ListVal(p).value)
    decreases |p|
  {
    if p != "" {
      EntryValue(p);
      var v, next := HexVal(p[..4]).value, AfterEntry(p);
      NormClustersAccepts(next, count + 1);
      NormClustersPrints(next, count + 1);
      TextStep(v, ListVal(next).value);
      Regroup(Comma(count > 0), FmtX(4, v), Comma(next != "") + ListText(ListVal(next).value));
    }
  }

  /** The list loop accepts exactly the texts that stand for at most 8 IDs, and prints those IDs. */
  lemma NormClustersMeaning(input: string)
    ensures NormClusters(input, 0).Ok? <==> ListVal(input).Some? && |ListVal(input).value| <= SREG_MAX_CLUSTERS
    ensures NormClusters(input, 0).Ok? ==>
              Ids16(ListVal(input).value) && NormClusters(input, 0).value == ListText(ListVal(input).value)
  {
    NormClustersAccepts(input, 0);
    if NormClusters(input, 0).Ok? {
      NormClustersPrints(input, 0);
      Nothing(ListText(ListVal(input).value));
    }
  }

  lemma FirstOfText(ids: seq<nat>)
    requires ids != [] && Ids16(ids)
    ensures var s := ListText(ids);
            EntryFirst(s) && HexVal(s[..4]) == Some(ids[0]) && AfterEntry(s) == ListText(ids[1..])
  {
    PowersOf16();
    FmtXWidth(4, ids[0]);
    HexValOfFmtX(4, ids[0]);
    var s, head := ListText(ids), FmtX(4, ids[0]);
    assert s[..4] == head;
    if |ids| > 1 {
      FmtXWidth(4, ids[1]);
      assert s[5..] == ListText(ids[1..]);
    }
  }

  /** A printed list is read back, and has 5 characters per ID less one. */
  lemma {:induction false} ListValOfText(ids: seq<nat>)
    requires Ids16(ids)
    ensures ListVal(ListText(ids)) == Some(ids)
    ensures |ListText(ids)| == if ids == [] then 0 else 5 * |ids| - 1
  {
    if ids != [] {
      FirstOfText(ids);
      ListValOfText(ids[1..]);
      assert ids == [ids[0]] + ids[1..];
    }
  }

  // ------------------------------------------------------------ what is accepted

  /** A decimal number with both digits, `%02ld`. */
  lemma Pad2Shape(d: int)
    requires -100 < d < 100
    ensures var s := Pad2(d); |s| == (if d < 0 then 3 else 2) && (d < 0 <==> s[0] == '-')
  {
  }

  /** The texts each type of register takes. */
  predicate Takes(r: Reg, input: string) {
    match r.kind
    case Dyn => false
    case Str => |input| <= r.maxLen
    case Clusters => ListVal(input).Some? && |ListVal(input).value| <= SREG_MAX_CLUSTERS
    case S8 => Strtol(input).1 == |input| > 0 && -40 <= Strtol(input).0 <= 8
    case _ =>
      && AllHex(input)
      && (if Numeric(r) then 0 < |input| <= Digits(r) else |input| == Digits(r))
      && (r.id == 0x12 && Numeric(r) ==> U32(input) / 256 == 0x0C)
  }

  /** Validation accepts exactly these; everything else is an invalid parameter, if the register can be written. */
  lemma NormaliseExactly(r: Reg, input: string)
    ensures Normalise(r, input).Ok? <==> Takes(r, input)
    ensures Normalise(r, input).Err? ==>
              Normalise(r, input).code == if r.kind == Dyn then AT_ERR_READ_ONLY else AT_ERR_INVALID_PARAM
  {
    if r.kind == Clusters {
      NormClustersMeaning(input);
    } else if Numeric(r) {
      HexValDefined(input);
    }
  }

  lemma SignedRange(r: Reg, input: string, d: int)
    requires r.kind == S8 && input != "" && Strtol(input) == (d, |input|)
    ensures Normalise(r, input) == if -40 <= d <= 8 then Ok(Pad2(d)) else Err(AT_ERR_INVALID_PARAM)
  {
  }

  /** S01 takes a printed number exactly from -40 to 8. */
  lemma SignedAccepted(r: Reg, d: int)
    requires r.kind == S8
    ensures Normalise(r, FmtD(d)) == if -40 <= d <= 8 then Ok(Pad2(d)) else Err(AT_ERR_INVALID_PARAM)
  {
    StrtolPrinted(d, "");
    Nothing(FmtD(d));
    SignedRange(r, FmtD(d), d);
  }

  // ------------------------------------------------------------ readers

  /** `sreg_u32`: strtoul in base 16 of a canonical value. */
  function U32(val: string): nat {
    match HexVal(val)
    case Some(v) => v
    case None => 0
  }

  /** `sreg_s8`. */
  function S8Of(val: string): int {
    Strtol(val).0
  }

  /** `sreg_bytes` without its length test: two digits a byte. */
  function Bytes(val: string): seq<nat> {
    if |val| < 2 then []
    else [U32(val[..2])] + Bytes(val[2..])
  }

  /** `sreg_clusters`: at most `max` IDs, stopping at the first that does not parse. */
  function ClusterIds(p: string, max: nat): seq<nat>
    decreases |p|
  {
    if p == "" || max == 0 || |p| < 4 || ParseHexN(p[..4]).None? then []
    else [ParseHexN(p[..4]).value] + ClusterIds(if |p| > 4 && p[4] == ',' then p[5..] else p[4..], max - 1)
  }

  lemma {:induction false} ClusterIdsOfText(ids: seq<nat>, max: nat)
    requires Ids16(ids) && |ids| <= max
    ensures ClusterIds(ListText(ids), max) == ids
    decreases |ids|
  {
    if ids != [] {
      FirstOfText(ids);
      HexValDefined(ListText(ids)[..4]);
      AfterFirst(ListText(ids));
      ClusterIdsOfText(ids[1..], max - 1);
      assert ids == [ids[0]] + ids[1..];
    }
  }

  /** The reader's step over an entry is the same. */
  lemma AfterFirst(p: string)
    requires EntryFirst(p)
    ensures AfterEntry(p) == if |p| > 4 && p[4] == ',' then p[5..] else p[4..]
  {
  }

  lemma {:induction false} BytesOfUpper(s: string)
    requires AllHex(s)
    ensures Bytes(ToUpper(s)) == Bytes(s)
  {
    UpperIdempotent(s);
    if |s| >= 2 {
      HexValUpper(s[..2]);
      assert ToUpper(s)[..2] == ToUpper(s[..2]);
      assert ToUpper(s)[2..] == ToUpper(s[2..]);
      BytesOfUpper(s[2..]);
    }
  }

  lemma {:induction false} HexValUpper(s: string)
    requires AllHex(s)
    ensures HexVal(ToUpper(s)) == HexVal(s)
  {
    UpperIdempotent(s);
    if s != "" {
      HexValUpper(s[..|s| - 1]);
      assert ToUpper(s)[..|s| - 1] == ToUpper(s[..|s| - 1]);
    }
  }

  // ------------------------------------------------------------ what a valid input means

  /** What the firmware reads from a register text, by type. */
  datatype Meaning =
    | Number(v: nat)
    | Signed(d: int)
    | Octets(bytes: seq<nat>)
    | Text(text: string)
    | IdList(ids: seq<nat>)
    | None'

  function Read(r: Reg, val: string): Meaning {
    match r.kind
    case U8 => Number(U32(val))
    case U16 => Number(U32(val))
    case S8 => Signed(S8Of(val))
    case Hex64 => Octets(Bytes(val))
    case Key128 => Octets(Bytes(val))
    case Str => Text(val)
    case Clusters => IdList(ClusterIds(val, SREG_MAX_CLUSTERS))
    case Dyn => None'
  }

  /** What a host wrote: the same readings, of the text as typed. */
  function Written(r: Reg, input: string): Meaning {
    match r.kind
    case Clusters => (match ListVal(input) case Some(ids) => IdList(ids) case None => None')
    case _ => Read(r, input)
  }

  lemma NumberMeaning(r: Reg, input: string)
    requires Numeric(r) && Normalise(r, input).Ok?
    ensures var out := Normalise(r, input).value;
            Normalise(r, out) == Ok(out) && |out| < VAL_MAX && Read(r, out) == Written(r, input)
  {
    NumberIdempotent(r, input);
  }

  lemma SignedMeaning(r: Reg, input: string)
    requires r.kind == S8 && Normalise(r, input).Ok?
    ensures var out := Normalise(r, input).value;
            Normalise(r, out) == Ok(out) && |out| < VAL_MAX && Read(r, out) == Written(r, input)
  {
    Pad2Read(Strtol(input).0);
  }

  lemma HexMeaning(r: Reg, input: string)
    requires (r.kind == Hex64 || r.kind == Key128) && Normalise(r, input).Ok?
    ensures var out := Normalise(r, input).value;
            Normalise(r, out) == Ok(out) && |out| < VAL_MAX && Read(r, out) == Written(r, input)
  {
    UpperIdempotent(input);
    BytesOfUpper(input);
  }

  lemma ListMeaning(r: Reg, input: string)
    requires r.kind == Clusters && Normalise(r, input).Ok?
    ensures var out := Normalise(r, input).value;
            Normalise(r, out) == Ok(out) && |out| < VAL_MAX && Read(r, out) == Written(r, input)
  {
    NormClustersMeaning(input);
    var ids := ListVal(input).value;
    var out := Normalise(r, input).value;
    ListValOfText(ids);
    NormClustersMeaning(out);
    ClusterIdsOfText(ids, SREG_MAX_CLUSTERS);
  }

  /**
   Validation is sound: the canonical text is its own canonical text, fits the value buffer with its
   terminator, and the firmware's reader of the type gives exactly what was written.
   */
  lemma NormaliseMeaning(r: Reg, input: string)
    requires Normalise(r, input).Ok? && r.maxLen < VAL_MAX
    ensures var out := Normalise(r, input).value;
            Normalise(r, out) == Ok(out) && |out| < VAL_MAX && Read(r, out) == Written(r, input)
  {
    match r.kind
    case U8 => NumberMeaning(r, input);
    case U16 => NumberMeaning(r, input);
    case S8 => SignedMeaning(r, input);
    case Hex64 => HexMeaning(r, input);
    case Key128 => HexMeaning(r, input);
    case Clusters => ListMeaning(r, input);
    case Str =>
  }

  // ------------------------------------------------------------ bits

  /** `v | BIT(b)` or `v & ~BIT(b)`. */
  function SetBit(v: nat, b: nat, on: bool): nat {
    if b == 0 then v / 2 * 2 + (if on then 1 else 0) else 2 * SetBit(v / 2, b - 1, on) + v % 2
  }

  /** Exactly one bit changes. */
  lemma {:induction false} SetBitChangesOne(v: nat, b: nat, on: bool, c: nat)
    ensures BitOf(SetBit(v, b, on), c) == if c == b then (if on then 1 else 0) else BitOf(v, c)
  {
    if b > 0 {
      assert SetBit(v, b, on) / 2 == SetBit(v / 2, b - 1, on);
      if c > 0 {
        SetBitChangesOne(v / 2, b - 1, on, c - 1);
      }
    } else {
      assert SetBit(v, b, on) / 2 == v / 2;
    }
  }

  function Pow2(n: nat): (p: nat)
    ensures p >= 1
  {
    if n == 0 then 1 else 2 * Pow2(n - 1)
  }

  lemma PowersOf2()
    ensures Pow2(8) == Pow16(2) && Pow2(16) == Pow16(4)
  {
    PowersOf16();
    assert Pow2(4) == 2 * Pow2(3) && Pow2(3) == 2 * Pow2(2) && Pow2(2) == 2 * Pow2(1);
    assert Pow2(8) == 2 * Pow2(7) && Pow2(7) == 2 * Pow2(6) && Pow2(6) == 2 * Pow2(5) && Pow2(5) == 2 * Pow2(4);
    assert Pow2(12) == 2 * Pow2(11) && Pow2(11) == 2 * Pow2(10) && Pow2(10) == 2 * Pow2(9) && Pow2(9) == 2 * Pow2(8);
    assert Pow2(16) == 2 * Pow2(15) && Pow2(15) == 2 * Pow2(14) && Pow2(14) == 2 * Pow2(13) && Pow2(13) == 2 * Pow2(12);
  }

  /** An `n`-bit number stays one exactly when the bit is one of its own or is cleared. */
  lemma {:induction false} SetBitRange(v: nat, b: nat, on: bool, n: nat)
    requires v < Pow2(n)
    ensures SetBit(v, b, on) < Pow2(n) <==> (b < n || !on)
  {
    if b > 0 {
      if n > 0 {
        SetBitRange(v / 2, b - 1, on, n - 1);
      } else {
        SetBitRange(0, b - 1, on, 0);
      }
    }
  }

  // ------------------------------------------------------------ the loops

  /** `all_hex`. */
  method AllHexLoop(s: string, len: nat) returns (all: bool)
    requires len <= |s|
    ensures all == AllHex(s[..len])
  {
    for i := 0 to len
      invariant AllHex(s[..i])
    {
      if HexNibble(s[i]) < 0 {
        assert s[..len][i] == s[i];
        return false;
      }
    }
    all := true;
  }

  /** The `toupper` loop into the output buffer. */
  method Upper(input: string, out: array<char>)
    requires |input| <= out.Length
    modifies out
    ensures out[..|input|] == ToUpper(input) && out[|input|..] == old(out[|input|..])
  {
    for i := 0 to |input|
      invariant forall k :: 0 <= k < i ==> out[k] == ToUpper(input)[k]
      invariant forall k :: i <= k < out.Length ==> out[k] == old(out[k])
    {
      out[i] := UpperChar(input[i]);
    }
  }

  /** The list loop of `normalise`: `at` is the pointer, `out` what is printed so far. */
  method NormList(input: string) returns (r: Result<string>)
    ensures r == NormClusters(input, 0)
  {
    var at, count, out := 0, 0, "";
    assert input[at..] == input;
    assert NormClusters(input, 0).Ok? ==> out + NormClusters(input, 0).value == NormClusters(input, 0).value;
    while at < |input|
      invariant at <= |input| && count <= SREG_MAX_CLUSTERS
      invariant NormClusters(input, 0) ==
                match NormClusters(input[at..], count) case Err(e) => Err(e) case Ok(rest) => Ok(out + rest)
    {
      var p := input[at..];
      if count == SREG_MAX_CLUSTERS || |p| < 4 {
        return Err(AT_ERR_INVALID_PARAM);
      }
      var hex := AllHexLoop(p, 4);
      if !hex || (|p| > 4 && (p[4] != ',' || |p| == 5)) {
        return Err(AT_ERR_INVALID_PARAM);
      }
      var v := AtParseHexN(p, 4);
      HexValDefined(p[..4]);
      ListStep(out, Comma(count > 0) + FmtX(4, v.value), AfterEntry(p), count + 1);
      out := out + (Comma(count > 0) + FmtX(4, v.value));
      count := count + 1;
      at := at + if |p| > 4 then 5 else 4;
      assert input[at..] == AfterEntry(p);
    }
    r := Ok(out);
    assert out + "" == out;
  }

  lemma ListStep(out: string, entry: string, rest: string, count: nat)
    ensures (match NormClusters(rest, count) case Err(e) => Err(e) case Ok(t) => Ok(out + (entry + t)))
         == (match NormClusters(rest, count) case Err(e) => Err(e) case Ok(t) => Ok((out + entry) + t))
  {
    if NormClusters(rest, count).Ok? {
      var t := NormClusters(rest, count).value;
      assert out + (entry + t) == (out + entry) + t;
    }
  }

  /** `normalise`. */
  method NormaliseText(r: Reg, input: string) returns (out: Result<string>)
    ensures out == Normalise(r, input)
  {
    match r.kind {
      case U8 => out := NormNumberText(r, input);
      case U16 => out := NormNumberText(r, input);
      case S8 =>
        var (d, end) := Strtol(input);
        if input == "" || end != |input| || d < -40 || d > 8 {
          return Err(AT_ERR_INVALID_PARAM);
        }
        out := Ok(Pad2(d));
      case Hex64 => out := NormHexText(r, input);
      case Key128 => out := NormHexText(r, input);
      case Str => out := if |input| > r.maxLen then Err(AT_ERR_INVALID_PARAM) else Ok(input);
      case Clusters => out := NormList(input);
      case Dyn => out := Err(AT_ERR_READ_ONLY);
    }
  }

  method NormNumberText(r: Reg, input: string) returns (out: Result<string>)
    requires Numeric(r)
    ensures out == Normalise(r, input)
  {
    var digits := if r.kind == U8 then 2 else 4;
    if |input| == 0 || |input| > digits {
      return Err(AT_ERR_INVALID_PARAM);
    }
    var v := AtParseHexN(input, |input|);
    assert input[..|input|] == input;
    if v.None? || (r.id == 0x12 && v.value / 256 != 0x0C) {
      return Err(AT_ERR_INVALID_PARAM);
    }
    out := Ok(FmtX(digits, v.value));
  }

  method NormHexText(r: Reg, input: string) returns (out: Result<string>)
    requires r.kind == Hex64 || r.kind == Key128
    ensures out == Normalise(r, input)
  {
    var digits := if r.kind == Hex64 then 16 else 32;
    if |input| != digits {
      return Err(AT_ERR_INVALID_PARAM);
    }
    var hex := AllHexLoop(input, digits);
    assert input[..digits] == input;
    if !hex {
      return Err(AT_ERR_INVALID_PARAM);
    }
    var buffer := new char[VAL_MAX];
    Upper(input, buffer);
    out := Ok(buffer[..digits]);
  }

  /** `sreg_clusters` on a register's text: fills `out` and says how many. */
  method ReadClusters(val: string, out: array<nat>) returns (n: nat)
    modifies out
    ensures n <= out.Length && out[..n] == ClusterIds(val, out.Length)
    ensures out[n..] == old(out[n..])
  {
    n := 0;
    var at := 0;
    while at < |val| && n < out.Length
      invariant at <= |val| && n <= out.Length
      invariant ClusterIds(val, out.Length) == out[..n] + ClusterIds(val[at..], out.Length - n)
      invariant forall k :: n <= k < out.Length ==> out[k] == old(out[k])
    {
      var p := val[at..];
      if |p| < 4 {
        break;
      }
      var v := AtParseHexN(p, 4);
      if v.None? {
        break;
      }
      ghost var done, left := out[..n], out.Length - n;
      out[n] := v.value;
      n := n + 1;
      at := at + if |p| > 4 && p[4] == ',' then 5 else 4;
      ReadStep(done, p, left);
      assert val[at..] == if |p| > 4 && p[4] == ',' then p[5..] else p[4..];
      assert out[..n] == done + [v.value];
    }
    assert ClusterIds(val[at..], out.Length - n) == [];
  }

  lemma ReadStep(done: seq<nat>, p: string, max: nat)
    requires max > 0 && |p| >= 4 && ParseHexN(p[..4]).Some?
    ensures done + ClusterIds(p, max) ==
            (done + [ParseHexN(p[..4]).value]) + ClusterIds(if |p| > 4 && p[4] == ',' then p[5..] else p[4..], max - 1)
  {
  }

  /** The pairs of a text as `sreg_bytes` reads them: one that is no number repeats the one before, first `byte`. */
  function BytesFrom(byte: nat, val: string): seq<nat>
    decreases |val|
  {
    if |val| < 2 then []
    else
      var b := if ParseHexN(val[..2]).Some? then ParseHexN(val[..2]).value else byte;
      [b % 0x100] + BytesFrom(b, val[2..])
  }

  lemma {:induction false} BytesFromHex(byte: nat, val: string)
    requires AllHex(val)
    ensures BytesFrom(byte, val) == Bytes(val)
    decreases |val|
  {
    if |val| >= 2 {
      PairValue(val[..2]);
      BytesFromHex(U32(val[..2]), val[2..]);
    }
  }

  lemma PairValue(pair: string)
    requires |pair| == 2 && AllHex(pair)
    ensures ParseHexN(pair) == Some(U32(pair)) && U32(pair) < 0x100
  {
    HexValDefined(pair);
    PowersOf16();
  }

  /**
   `sreg_bytes` on a register's text: `None` unless the value has exactly `len` bytes. `start` is what the
   variable of the loop holds before it is first set.
   */
  method ReadBytes(val: string, len: nat, start: nat) returns (out: Option<seq<nat>>)
    ensures out == if |val| == 2 * len then Some(BytesFrom(start, val)) else None
    ensures |val| == 2 * len && AllHex(val) ==> out == Some(Bytes(val))
  {
    if |val| != 2 * len {
      return None;
    }
    var bytes: seq<nat>, byte := [], start;
    for i := 0 to len
      invariant bytes + BytesFrom(byte, val[2 * i..]) == BytesFrom(start, val)
    {
      ghost var later := val[2 * i..];
      var b := AtParseHexN(val[2 * i..], 2);
      if b.Some? {
        byte := b.value;
      }
      assert val[2 * (i + 1)..] == later[2..];
      assert bytes + [byte % 0x100] + BytesFrom(byte, later[2..]) == bytes + BytesFrom(byte, later);
      bytes := bytes + [byte % 0x100];
    }
    assert BytesFrom(byte, val[2 * len..]) == [] && bytes + [] == bytes;
    if AllHex(val) {
      BytesFromHex(start, val);
    }
    out := Some(bytes);
  }
}
