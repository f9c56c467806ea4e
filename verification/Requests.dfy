/** `AT+MATCHREQ` from host to firmware: host/etrx/protocol.py and app/src/zb_msg.c. */
module Requests {
  import opened Wrappers
  import opened AtResults
  import opened AtFmt
  import opened CText
  import opened TextFields
  import LineEditor

  const PAYLOAD_MAX := 82

  /** struct match_req: `clusters` is the in list and the out list behind it. */
  datatype MatchReq = MatchReq(profile: nat, ins: seq<nat>, outs: seq<nat>)

  // ------------------------------------------------------------ the parser

  /** A field of exactly `width` hex digits. */
  function HexField(field: Cursor, width: nat): Option<nat> {
    if field.None? || |field.value| != width then None else ParseHexN(field.value)
  }

  /** The loop over `n` cluster IDs. */
  function ParseIds(p: Cursor, n: nat): (r: Option<(seq<nat>, Cursor)>)
    ensures r.Some? ==> |r.value.0| == n
    decreases n
  {
    if n == 0 then Some(([], p))
    else
      var (field, rest) := NextField(p);
      match HexField(field, 4)
      case None => None
      case Some(v) =>
        match ParseIds(rest, n - 1)
        case None => None
        case Some((ids, end)) => Some(([v] + ids, end))
  }

  /** `parse_cluster_list`. */
  function ParseList(p: Cursor): Option<(seq<nat>, Cursor)> {
    var (field, rest) := NextField(p);
    match HexField(field, 2)
    case None => None
    case Some(n) => if n > SREG_MAX_CLUSTERS then None else ParseIds(rest, n)
  }

  /** The part of `cmd_matchreq` that reads its argument. */
  function ParseMatch(args: string): Option<MatchReq> {
    if args == "" || args[0] != ':' then None
    else
      var (field, p) := NextField(Some(args[1..]));
      match HexField(field, 4)
      case None => None
      case Some(profile) =>
        match ParseList(p)
        case None => None
        case Some((ins, q)) =>
          match ParseList(q)
          case None => None
          case Some((outs, end)) => if end.Some? then None else Some(MatchReq(profile, ins, outs))
  }

  /** `cmd_matchreq`: the result, and the request left for the ZBOSS thread if there is one. */
  function CmdMatch(args: string, joined: bool, gotBuffer: bool): (int, Option<MatchReq>) {
    match ParseMatch(args)
    case None => (AT_ERR_INVALID_PARAM, None)
    case Some(req) =>
      if !joined then (AT_ERR_NOT_JOINED, None)
      else (if gotBuffer then AT_OK else AT_ERR_NO_BUFFERS, Some(req))
  }

  /** Each answer of the command has its condition, and a request is left pending exactly behind the first two. */
  lemma MatchAnswer(args: string, joined: bool, gotBuffer: bool, req: MatchReq)
    ensures var (err, pending) := CmdMatch(args, joined, gotBuffer);
            && (pending == Some(req) <==> ParseMatch(args) == Some(req) && (err == AT_OK || err == AT_ERR_NO_BUFFERS))
            && (err == AT_OK <==> ParseMatch(args).Some? && joined && gotBuffer)
            && (err == AT_ERR_NO_BUFFERS <==> ParseMatch(args).Some? && joined && !gotBuffer)
            && (err == AT_ERR_NOT_JOINED <==> ParseMatch(args).Some? && !joined)
            && (err == AT_ERR_INVALID_PARAM <==> ParseMatch(args).None?)
  {
  }

  // ------------------------------------------------------------ the grammar

  /** A field holds this number in this many hex digits. */
  predicate Holds(field: string, width: nat, v: nat) {
    |field| == width && HexVal(field) == Some(v)
  }

  predicate IdFields(fields: seq<string>, ids: seq<nat>) {
    |fields| == |ids| && forall i :: 0 <= i < |ids| ==> Holds(fields[i], 4, ids[i])
  }

  /** A 2-digit count, at most 8, and that many 4-digit IDs. */
  predicate ListFields(fields: seq<string>, ids: seq<nat>) {
    && |ids| <= SREG_MAX_CLUSTERS && |fields| == 1 + |ids|
    && Holds(fields[0], 2, |ids|) && IdFields(fields[1..], ids)
  }

  /** `<profile>,<NumIn>[,<InCluster>...],<NumOut>[,<OutCluster>...]` and nothing else. */
  predicate RequestFields(fields: seq<string>, req: MatchReq) {
    && |fields| == 3 + |req.ins| + |req.outs|
    && Holds(fields[0], 4, req.profile)
    && ListFields(fields[1..2 + |req.ins|], req.ins)
    && ListFields(fields[2 + |req.ins|..], req.outs)
  }

  /** Enough fields of the right kind are there. */
  predicate IdsReady(fields: seq<string>, n: nat) {
    n <= |fields| && forall i :: 0 <= i < n ==> |fields[i]| == 4 && HexVal(fields[i]).Some?
  }

  predicate ListReady(fields: seq<string>) {
    && fields != [] && |fields[0]| == 2 && HexVal(fields[0]).Some?
    && HexVal(fields[0]).value <= SREG_MAX_CLUSTERS && IdsReady(fields[1..], HexVal(fields[0]).value)
  }

  lemma IdsReadyStep(fields: seq<string>, n: nat)
    requires n > 0
    ensures IdsReady(fields, n) <==>
            fields != [] && |fields[0]| == 4 && HexVal(fields[0]).Some? && IdsReady(fields[1..], n - 1)
  {
    if fields != [] && |fields[0]| == 4 && HexVal(fields[0]).Some? && IdsReady(fields[1..], n - 1) {
      assert forall i :: 1 <= i < n ==> fields[i] == fields[1..][i - 1];
    }
  }

  lemma IdFieldsNext(fields: seq<string>, n: nat, v: nat, ids: seq<nat>)
    requires 0 < n <= |fields| && Holds(fields[0], 4, v) && IdFields(fields[1..][..n - 1], ids)
    ensures IdFields(fields[..n], [v] + ids) && fields[1..][n - 1..] == fields[n..]
  {
  }

  /** The loop takes as many fields as it is told, if each of them holds a 4-digit ID. */
  lemma {:induction false} ParseIdsOnFields(p: Cursor, n: nat)
    ensures ParseIds(p, n).Some? <==> IdsReady(FieldsOf(p), n)
    ensures ParseIds(p, n).Some? ==>
              && IdFields(FieldsOf(p)[..n], ParseIds(p, n).value.0)
              && FieldsOf(ParseIds(p, n).value.1) == FieldsOf(p)[n..]
    decreases n
  {
    var fs := FieldsOf(p);
    if n > 0 {
      NextFieldTakesOne(p);
      IdsReadyStep(fs, n);
      if fs != [] {
        ParseIdsOnFields(NextField(p).1, n - 1);
        if ParseIds(p, n).Some? {
          IdFieldsNext(fs, n, HexVal(fs[0]).value, ParseIds(NextField(p).1, n - 1).value.0);
        }
      }
    }
  }

  lemma ParseListOnFields(p: Cursor)
    ensures ParseList(p).Some? <==> ListReady(FieldsOf(p))
    ensures ParseList(p).Some? ==>
              var (ids, rest) := ParseList(p).value;
              && 1 + |ids| <= |FieldsOf(p)| && ListFields(FieldsOf(p)[..1 + |ids|], ids)
              && FieldsOf(rest) == FieldsOf(p)[1 + |ids|..]
  {
    var fs := FieldsOf(p);
    NextFieldTakesOne(p);
    if fs != [] && HexField(Some(fs[0]), 2).Some? {
      var n := HexVal(fs[0]).value;
      ParseIdsOnFields(NextField(p).1, n);
      if 1 + n <= |fs| {
        assert fs[..1 + n][1..] == fs[1..][..n] && fs[1..][n..] == fs[1 + n..];
      }
    }
  }

  lemma FieldsReady(fields: seq<string>, ids: seq<nat>)
    requires 1 + |ids| <= |fields| && ListFields(fields[..1 + |ids|], ids)
    ensures ListReady(fields)
  {
    var mine := fields[..1 + |ids|];
    assert forall i :: 0 <= i < |ids| ==> fields[1..][i] == mine[1..][i];
  }

  /** The count decides how many IDs follow, and the fields which. */
  lemma OneReading(fs: seq<string>, a: seq<nat>, b: seq<nat>)
    requires 1 + |a| <= |fs| && 1 + |b| <= |fs|
    requires ListFields(fs[..1 + |a|], a) && ListFields(fs[..1 + |b|], b)
    ensures a == b
  {
    assert fs[..1 + |a|][0] == fs[0] == fs[..1 + |b|][0];
    assert |a| == |b|;
    var ids := fs[..1 + |a|][1..];
    assert forall i :: 0 <= i < |a| ==> Holds(ids[i], 4, a[i]) && Holds(ids[i], 4, b[i]);
  }

  lemma ListParsed(p: Cursor, ids: seq<nat>)
    requires var fs := FieldsOf(p); 1 + |ids| <= |fs| && ListFields(fs[..1 + |ids|], ids)
    ensures ParseList(p).Some? && ParseList(p).value.0 == ids
    ensures FieldsOf(ParseList(p).value.1) == FieldsOf(p)[1 + |ids|..]
  {
    FieldsReady(FieldsOf(p), ids);
    ParseListOnFields(p);
    OneReading(FieldsOf(p), ids, ParseList(p).value.0);
  }

  lemma TwoLists(fs: seq<string>, n: nat)
    requires 2 + n <= |fs|
    ensures fs[1..][..1 + n] == fs[1..2 + n] && fs[1..][1 + n..] == fs[2 + n..]
  {
  }

  /** Two lists with nothing behind them. */
  lemma ListsParsed(p: Cursor, ins: seq<nat>, outs: seq<nat>)
    requires var fs := FieldsOf(p);
             && |fs| == 2 + |ins| + |outs|
             && ListFields(fs[..1 + |ins|], ins) && ListFields(fs[1 + |ins|..], outs)
    ensures var first := ParseList(p);
            && first.Some? && first.value.0 == ins
            && ParseList(first.value.1) == Some((outs, None))
  {
    ListParsed(p, ins);
    var q := ParseList(p).value.1;
    assert FieldsOf(q)[..1 + |outs|] == FieldsOf(q);
    ListParsed(q, outs);
  }

  /** What follows the profile. */
  predicate RestFields(fields: seq<string>, req: MatchReq) {
    && |fields| == 2 + |req.ins| + |req.outs|
    && ListFields(fields[..1 + |req.ins|], req.ins) && ListFields(fields[1 + |req.ins|..], req.outs)
  }

  lemma AfterProfile(fields: seq<string>, req: MatchReq)
    requires fields != []
    ensures RequestFields(fields, req) <==> Holds(fields[0], 4, req.profile) && RestFields(fields[1..], req)
  {
    if |fields| == 3 + |req.ins| + |req.outs| {
      TwoLists(fields, |req.ins|);
    }
  }

  lemma FieldsParsed(args: string, req: MatchReq)
    requires args != "" && args[0] == ':' && RequestFields(Split(args[1..]), req)
    ensures ParseMatch(args) == Some(req)
  {
    var start: Cursor := Some(args[1..]);
    ProfileParsed(start, req);
    ListsParsed(NextField(start).1, req.ins, req.outs);
  }

  lemma ProfileParsed(p: Cursor, req: MatchReq)
    requires p.Some? && RequestFields(FieldsOf(p), req)
    ensures HexField(NextField(p).0, 4) == Some(req.profile) && RestFields(FieldsOf(NextField(p).1), req)
  {
    AfterProfile(FieldsOf(p), req);
    NextFieldTakesOne(p);
  }

  lemma ListsRead(p: Cursor, req: MatchReq)
    requires ParseList(p).Some? && ParseList(p).value.0 == req.ins
    requires ParseList(ParseList(p).value.1) == Some((req.outs, None))
    ensures RestFields(FieldsOf(p), req)
  {
    ParseListOnFields(p);
    var q := ParseList(p).value.1;
    ParseListOnFields(q);
    assert FieldsOf(q)[..1 + |req.outs|] == FieldsOf(q);
  }

  lemma ParsedFields(args: string)
    requires ParseMatch(args).Some?
    ensures RequestFields(Split(args[1..]), ParseMatch(args).value)
  {
    var start: Cursor := Some(args[1..]);
    NextFieldTakesOne(start);
    ListsRead(NextField(start).1, ParseMatch(args).value);
    AfterProfile(Split(args[1..]), ParseMatch(args).value);
  }

  predicate Spelled(args: string, fields: seq<string>) {
    fields != [] && NoCommas(fields) && args == ":" + Join(fields)
  }

  lemma SpelledOnce(args: string, fields: seq<string>)
    requires Spelled(args, fields)
    ensures args[1..] == Join(fields) && Split(args[1..]) == fields
  {
    SplitOfJoin(fields);
  }

  lemma SpelledIsParsed(args: string, fields: seq<string>, req: MatchReq)
    requires Spelled(args, fields) && RequestFields(fields, req)
    ensures ParseMatch(args) == Some(req)
  {
    SpelledOnce(args, fields);
    FieldsParsed(args, req);
  }

  lemma SpelledSplit(args: string)
    requires args != "" && args[0] == ':'
    ensures Spelled(args, Split(args[1..]))
  {
    JoinOfSplit(args[1..]);
    assert args == ":" + args[1..];
  }

  lemma ParsedIsSpelled(args: string)
    requires ParseMatch(args).Some?
    ensures Spelled(args, Split(args[1..])) && RequestFields(Split(args[1..]), ParseMatch(args).value)
  {
    ParsedFields(args);
    SpelledSplit(args);
  }

  /** The parser accepts exactly the grammar: right counts, right widths, no field missing or left over. */
  lemma AcceptsExactlyTheGrammar(args: string, req: MatchReq)
    ensures ParseMatch(args) == Some(req) <==> exists fields :: Spelled(args, fields) && RequestFields(fields, req)
  {
    if ParseMatch(args) == Some(req) {
      ParsedIsSpelled(args);
    }
    if fields :| Spelled(args, fields) && RequestFields(fields, req) {
      SpelledIsParsed(args, fields, req);
    }
  }

  // ------------------------------------------------------------ the host

  /** `part` in `match`: the count and the IDs. */
  function PartFields(ids: seq<nat>): (fs: seq<string>)
    ensures |fs| == 1 + |ids|
  {
    [FmtX(2, |ids|)] + seq(|ids|, i requires 0 <= i < |ids| => FmtX(4, ids[i]))
  }

  const MATCHREQ := "AT+MATCHREQ"

  /** The command `match` sends. */
  function HostMatch(req: MatchReq): string {
    MATCHREQ + ":" + FmtX(4, req.profile) + "," + Join(PartFields(req.ins)) + "," + Join(PartFields(req.outs))
  }

  function HostFields(req: MatchReq): seq<string> {
    [FmtX(4, req.profile)] + PartFields(req.ins) + PartFields(req.outs)
  }

  /** What one command can ask: 16-bit IDs, at most 8 in each list. */
  predicate Askable(req: MatchReq) {
    && req.profile < 0x1_0000
    && |req.ins| <= SREG_MAX_CLUSTERS && |req.outs| <= SREG_MAX_CLUSTERS
    && (forall i :: 0 <= i < |req.ins| ==> req.ins[i] < 0x1_0000)
    && (forall i :: 0 <= i < |req.outs| ==> req.outs[i] < 0x1_0000)
  }

  lemma NumberField(width: nat, v: nat, w: nat)
    requires width == 2 || width == 4
    ensures ',' !in FmtX(width, v)
    ensures Holds(FmtX(width, v), width, w) <==> w == v && v < Pow16(width)
  {
    assert HexNibble(',') == -1;
    HexValOfFmtX(width, v);
    FmtXWidth(width, v);
  }

  lemma PartNoCommas(ids: seq<nat>)
    ensures NoCommas(PartFields(ids))
  {
    forall i | 0 <= i < |PartFields(ids)|
      ensures ',' !in PartFields(ids)[i]
    {
      NumberField(if i == 0 then 2 else 4, if i == 0 then |ids| else ids[i - 1], 0);
    }
  }

  lemma HostMatchJoined(req: MatchReq)
    ensures HostMatch(req) == MATCHREQ + (":" + Join(HostFields(req))) && NoCommas(HostFields(req))
  {
    NumberField(4, req.profile, 0);
    PartNoCommas(req.ins);
    PartNoCommas(req.outs);
    JoinThree(FmtX(4, req.profile), PartFields(req.ins), PartFields(req.outs));
    CommandText(MATCHREQ, ":", FmtX(4, req.profile), Join(PartFields(req.ins)), Join(PartFields(req.outs)));
  }

  lemma JoinThree(head: string, a: seq<string>, b: seq<string>)
    requires a != [] && b != []
    ensures Join([head] + a + b) == head + "," + Join(a) + "," + Join(b)
  {
    JoinConcat([head], a);
    JoinConcat([head] + a, b);
  }

  lemma CommandText(name: string, colon: string, x: string, y: string, z: string)
    ensures name + colon + x + "," + y + "," + z == name + (colon + (x + "," + y + "," + z))
  {
  }

  /** The fields of one list hold `ids` exactly when they were printed from them and these fit. */
  lemma PartHolds(ids: seq<nat>, other: seq<nat>)
    ensures ListFields(PartFields(ids), other) <==>
            other == ids && |ids| <= SREG_MAX_CLUSTERS && forall i :: 0 <= i < |ids| ==> ids[i] < 0x1_0000
  {
    PowersOf16();
    NumberField(2, |ids|, |other|);
    forall i | 0 <= i < |ids| && i < |other|
      ensures Holds(PartFields(ids)[1..][i], 4, other[i]) <==> other[i] == ids[i] && ids[i] < 0x1_0000
    {
      NumberField(4, ids[i], other[i]);
    }
  }

  lemma HostFieldsHold(req: MatchReq, other: MatchReq)
    ensures RequestFields(HostFields(req), other) <==> other == req && Askable(req)
  {
    var fs := HostFields(req);
    PowersOf16();
    NumberField(4, req.profile, other.profile);
    PartHolds(req.ins, other.ins);
    PartHolds(req.outs, other.outs);
    assert fs[0] == FmtX(4, req.profile);
    assert fs[1] == PartFields(req.ins)[0];
    if RequestFields(fs, other) {
      assert fs[1..2 + |other.ins|][0] == fs[1];
      NumberField(2, |req.ins|, |other.ins|);
    }
    if |req.ins| == |other.ins| {
      assert fs[1..2 + |other.ins|] == PartFields(req.ins);
      assert fs[2 + |other.ins|..] == PartFields(req.outs);
    }
  }

  /**
   The firmware reads the host's command as exactly the request the host meant; a request that one command
   cannot ask is refused, whatever it contains.
   */
  lemma MatchRoundTrip(req: MatchReq)
    ensures HostMatch(req)[..11] == MATCHREQ
    ensures ParseMatch(HostMatch(req)[11..]) == if Askable(req) then Some(req) else None
  {
    HostMatchJoined(req);
    var fs := HostFields(req);
    var args := ":" + Join(fs);
    assert HostMatch(req)[11..] == args;
    assert Spelled(args, fs);
    SpelledOnce(args, fs);
    if Askable(req) {
      HostFieldsHold(req, req);
      FieldsParsed(args, req);
    } else if ParseMatch(args).Some? {
      ParsedFields(args);
      HostFieldsHold(req, ParseMatch(args).value);
      assert false;
    }
  }

  lemma {:induction false} JoinedLength(fs: seq<string>, width: nat)
    requires fs != [] && forall i :: 0 <= i < |fs| ==> |fs[i]| <= width
    ensures |Join(fs)| <= (width + 1) * |fs|
  {
    if |fs| > 1 {
      JoinedLength(fs[1..], width);
    }
  }

  lemma {:induction false} JoinedTypable(fs: seq<string>)
    requires forall i :: 0 <= i < |fs| ==> UpperHex(fs[i])
    ensures forall k :: 0 <= k < |Join(fs)| ==> LineEditor.Typable(Join(fs)[k])
  {
    if fs != [] {
      HexTypable(fs[0]);
      JoinedTypable(fs[1..]);
    }
  }

  lemma HexTypable(s: string)
    requires UpperHex(s)
    ensures forall k :: 0 <= k < |s| ==> LineEditor.Typable(s[k])
  {
  }

  /** Whatever can be asked fits one command line, and the line editor hands over that line and no other. */
  lemma MatchFitsOneLine(req: MatchReq)
    requires Askable(req)
    ensures LineEditor.Sendable(HostMatch(req))
    ensures LineEditor.Lines(LineEditor.EMPTY, HostMatch(req) + "\r") == [HostMatch(req)]
  {
    HostMatchJoined(req);
    HostFieldsFit(req);
    LineEditor.SentLineArrives(HostMatch(req));
  }

  lemma HostFieldsFit(req: MatchReq)
    requires Askable(req)
    ensures |Join(HostFields(req))| <= 5 * |HostFields(req)|
    ensures forall k :: 0 <= k < |Join(HostFields(req))| ==> LineEditor.Typable(Join(HostFields(req))[k])
  {
    var fs := HostFields(req);
    forall i | 0 <= i < |fs|
      ensures |fs[i]| <= 4 && UpperHex(fs[i])
    {
      FieldSmall(req, i);
    }
    JoinedLength(fs, 4);
    JoinedTypable(fs);
  }

  lemma FieldSmall(req: MatchReq, i: nat)
    requires Askable(req) && i < |HostFields(req)|
    ensures |HostFields(req)[i]| <= 4 && UpperHex(HostFields(req)[i])
  {
    var n := |req.ins|;
    if i == 0 {
      NumberSmall(4, req.profile);
    } else if i == 1 {
      NumberSmall(2, n);
    } else if i < 2 + n {
      NumberSmall(4, req.ins[i - 2]);
    } else if i == 2 + n {
      NumberSmall(2, |req.outs|);
    } else {
      NumberSmall(4, req.outs[i - 3 - n]);
    }
  }

  lemma NumberSmall(width: nat, v: nat)
    requires width == 2 || width == 4
    requires v < if width == 2 then 0x100 else 0x1_0000
    ensures |FmtX(width, v)| <= 4 && UpperHex(FmtX(width, v))
  {
    PowersOf16();
    FmtXWidth(width, v);
  }

  // ------------------------------------------------------------ in place

  /** A result of the loop with what it had read before. */
  function After(done: seq<nat>, r: Option<(seq<nat>, Cursor)>): Option<(seq<nat>, Cursor)> {
    match r
    case None => None
    case Some((ids, end)) => Some((done + ids, end))
  }

  lemma AfterNothing(r: Option<(seq<nat>, Cursor)>)
    ensures After([], r) == r
  {
    if r.Some? {
      assert [] + r.value.0 == r.value.0;
    }
  }

  /** One round of the loop. */
  lemma StepIds(done: seq<nat>, p: Cursor, n: nat)
    requires n > 0
    ensures var (field, rest) := NextField(p); var v := HexField(field, 4);
            After(done, ParseIds(p, n)) == if v.None? then None else After(done + [v.value], ParseIds(rest, n - 1))
  {
    var (field, rest) := NextField(p);
    if HexField(field, 4).Some? && ParseIds(rest, n - 1).Some? {
      var v, ids := HexField(field, 4).value, ParseIds(rest, n - 1).value.0;
      assert done + ([v] + ids) == done + [v] + ids;
    }
  }

  lemma AfterAll(done: seq<nat>, p: Cursor)
    ensures After(done, ParseIds(p, 0)) == Some((done, p))
  {
    assert done + [] == done;
  }

  /** A field of `width` hex digits in the buffer. */
  method ReadHex(buf: array<char>, field: int, width: nat) returns (v: Option<nat>)
    requires Points(buf[..], field)
    ensures v == HexField(Text(buf[..], field), width)
  {
    if field < 0 {
      return None;
    }
    var text := CString(buf[..][field..]);
    if |text| != width {
      return None;
    }
    v := AtParseHexN(text, width);
    assert text[..width] == text;
  }

  /** Takes a field of `width` hex digits. */
  method TakeHex(buf: array<char>, p: int, width: nat) returns (v: Option<nat>, rest: int)
    requires Points(buf[..], p)
    modifies buf
    ensures Points(buf[..], rest)
    ensures Text(buf[..], rest) == NextField(old(Text(buf[..], p))).1
    ensures v == HexField(NextField(old(Text(buf[..], p))).0, width)
  {
    var field: int;
    field, rest := NextFieldInPlace(buf, p);
    v := ReadHex(buf, field, width);
  }

  /** One ID of the list, into `out[j]`. */
  method TakeInto(buf: array<char>, p: int, out: array<nat>, j: nat) returns (ok: bool, rest: int)
    requires Points(buf[..], p) && j < out.Length
    modifies buf, out
    ensures Points(buf[..], rest) && Text(buf[..], rest) == NextField(old(Text(buf[..], p))).1
    ensures HexField(NextField(old(Text(buf[..], p))).0, 4) == if ok then Some(out[j]) else None
    ensures out[..] == old(out[..])[j := out[j]]
  {
    var v: Option<nat>;
    v, rest := TakeHex(buf, p, 4);
    ok := v.Some?;
    if ok {
      ghost var now := buf[..];
      out[j] := v.value;
      assert buf[..] == now;
    }
  }

  /** `was` with `ids` from position `at` on. */
  predicate Filled(was: seq<nat>, now: seq<nat>, at: nat, ids: seq<nat>) {
    at + |ids| <= |was| == |now| && now[..at] == was[..at] && now[at..at + |ids|] == ids
  }

  lemma FilledNext(was: seq<nat>, now: seq<nat>, at: nat, ids: seq<nat>, v: nat)
    requires Filled(was, now, at, ids) && at + |ids| < |was|
    ensures Filled(was, now[at + |ids| := v], at, ids + [v])
  {
  }

  /** After `ids`, what is left at `p` decides the result for the whole list at `start`. */
  ghost predicate SoFar(start: Cursor, n: nat, p: Cursor, ids: seq<nat>) {
    |ids| <= n && ParseIds(start, n) == After(ids, ParseIds(p, n - |ids|))
  }

  lemma SoFarNext(start: Cursor, n: nat, p: Cursor, ids: seq<nat>, v: Option<nat>)
    requires |ids| < n && SoFar(start, n, p, ids) && v == HexField(NextField(p).0, 4)
    ensures if v.Some? then SoFar(start, n, NextField(p).1, ids + [v.value]) else ParseIds(start, n) == None
  {
    StepIds(ids, p, n - |ids|);
  }

  /** One round of the loop. */
  method ReadId(buf: array<char>, p: int, out: array<nat>, i: nat, ghost was: seq<nat>, at: nat, ghost start: Cursor,
                n: nat, ghost ids: seq<nat>) returns (ok: bool, rest: int)
    requires Points(buf[..], p) && i == |ids| < n && at + n <= out.Length
    requires Filled(was, out[..], at, ids) && SoFar(start, n, Text(buf[..], p), ids)
    modifies buf, out
    ensures Points(buf[..], rest) && Filled(was, out[..], at, ids + [out[at + i]])
    ensures if ok then SoFar(start, n, Text(buf[..], rest), ids + [out[at + i]]) else ParseIds(start, n) == None
  {
    ghost var before, cursor := out[..], Text(buf[..], p);
    ok, rest := TakeInto(buf, p, out, at + i);
    SoFarNext(start, n, cursor, ids, if ok then Some(out[at + i]) else None);
    FilledNext(was, before, at, ids, out[at + i]);
  }

  /** The loop of `parse_cluster_list`, into `out[at..]`. */
  method ReadIds(buf: array<char>, p: int, n: nat, out: array<nat>, at: nat) returns (ok: bool, rest: int)
    requires Points(buf[..], p) && at + n <= out.Length
    modifies buf, out
    ensures Points(buf[..], rest)
    ensures ParseIds(old(Text(buf[..], p)), n) == if ok then Some((out[at..at + n], Text(buf[..], rest))) else None
    ensures out[..at] == old(out[..at])
  {
    rest := p;
    ghost var start, was, ids := Text(buf[..], p), out[..], [];
    AfterNothing(ParseIds(start, n));
    for i := 0 to n
      invariant Points(buf[..], rest) && i == |ids|
      invariant Filled(was, out[..], at, ids) && SoFar(start, n, Text(buf[..], rest), ids)
    {
      ok, rest := ReadId(buf, rest, out, i, was, at, start, n, ids);
      if !ok {
        return;
      }
      ids := ids + [out[at + i]];
    }
    AfterAll(ids, Text(buf[..], rest));
    ok := true;
  }

  lemma CountRead(p: Cursor, v: Option<nat>)
    requires v == HexField(NextField(p).0, 2)
    ensures ParseList(p) == if v.None? || v.value > SREG_MAX_CLUSTERS then None else ParseIds(NextField(p).1, v.value)
  {
  }

  /** The count in front of a list. */
  method ReadCount(buf: array<char>, p: int) returns (n: Option<nat>, rest: int)
    requires Points(buf[..], p)
    modifies buf
    ensures Points(buf[..], rest) && (n.Some? ==> n.value <= SREG_MAX_CLUSTERS)
    ensures ParseList(old(Text(buf[..], p))) == if n.None? then None else ParseIds(Text(buf[..], rest), n.value)
  {
    ghost var list := Text(buf[..], p);
    n, rest := TakeHex(buf, p, 2);
    CountRead(list, n);
    if n.Some? && n.value > SREG_MAX_CLUSTERS {
      n := None;
    }
  }

  /** `parse_cluster_list`. */
  method ReadList(buf: array<char>, p: int, out: array<nat>, at: nat) returns (ok: bool, count: nat, rest: int)
    requires Points(buf[..], p) && at + SREG_MAX_CLUSTERS <= out.Length
    modifies buf, out
    ensures Points(buf[..], rest) && count <= SREG_MAX_CLUSTERS
    ensures ParseList(old(Text(buf[..], p))) == if ok then Some((out[at..at + count], Text(buf[..], rest))) else None
    ensures out[..at] == old(out[..at])
  {
    var n: Option<nat>;
    n, rest := ReadCount(buf, p);
    if n.None? {
      return false, 0, rest;
    }
    count := n.value;
    ok, rest := ReadIds(buf, rest, count, out, at);
  }

  /** `cmd_matchreq` on its argument, the C string in `args`. */
  method CmdMatchreq(args: array<char>, joined: bool, gotBuffer: bool) returns (err: int, pending: Option<MatchReq>)
    requires Points(args[..], 0)
    modifies args
    ensures (err, pending) == CmdMatch(CString(old(args[..])), joined, gotBuffer)
  {
    ghost var text := CString(args[..]);
    if args[0] != ':' {
      return AT_ERR_INVALID_PARAM, None;
    }
    SkipOne(args[..]);
    var profile, p := TakeHex(args, 1, 4);
    if profile.None? {
      return AT_ERR_INVALID_PARAM, None;
    }
    var clusters := new nat[2 * SREG_MAX_CLUSTERS];
    var ok, nIn, q := ReadList(args, p, clusters, 0);
    if !ok {
      return AT_ERR_INVALID_PARAM, None;
    }
    ghost var ins := clusters[..nIn];
    var ok2, nOut, end := ReadList(args, q, clusters, nIn);
    if !ok2 || end >= 0 {
      return AT_ERR_INVALID_PARAM, None;
    }
    assert clusters[..nIn] == ins;
    if !joined {
      return AT_ERR_NOT_JOINED, None;
    }
    pending := Some(MatchReq(profile.value, clusters[..nIn], clusters[nIn..nIn + nOut]));
    err := if gotBuffer then AT_OK else AT_ERR_NO_BUFFERS;
  }

  /** `args + 1` behind a ':'. */
  lemma SkipOne(buf: string)
    requires Points(buf, 0) && buf[0] == ':'
    ensures Points(buf, 1) && Text(buf, 1) == Some(CString(buf)[1..]) && CString(buf) != "" && CString(buf)[0] == ':'
  {
    assert buf[0..] == buf && IndexOf(buf, '\0') >= 1;
    assert '\0' in buf[1..];
    CStringCut(buf, 1);
  }
}