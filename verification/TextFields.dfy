/**
 Comma-separated arguments as app/src/zb_msg.c takes them apart (`next_field`): in place, by writing
 terminators over the commas.
 */
module TextFields {
  import opened Wrappers
  import opened CText

  /** The C pointer `*p`: NULL, or the text it points at. */
  type Cursor = Option<string>

  /** `next_field`: the field taken and the new cursor. */
  function NextField(p: Cursor): (Cursor, Cursor) {
    match p
    case None => (None, None)
    case Some(s) =>
      var i := IndexOf(s, ',');
      if i == |s| then (p, None) else (Some(s[..i]), Some(s[i + 1..]))
  }

  // ------------------------------------------------------------ fields as a list

  function Split(s: string): (fs: seq<string>)
    ensures fs != []
    decreases |s|
  {
    var i := IndexOf(s, ',');
    if i == |s| then [s] else [s[..i]] + Split(s[i + 1..])
  }

  function Join(fs: seq<string>): string {
    if fs == [] then "" else if |fs| == 1 then fs[0] else fs[0] + "," + Join(fs[1..])
  }

  predicate NoCommas(fs: seq<string>) {
    forall i :: 0 <= i < |fs| ==> ',' !in fs[i]
  }

  /** What is still to be taken. */
  function FieldsOf(p: Cursor): (fs: seq<string>)
    ensures fs == [] <==> p == None
  {
    match p
    case None => []
    case Some(s) => Split(s)
  }

  /** One call takes the first field off the list. */
  lemma NextFieldTakesOne(p: Cursor)
    ensures p == None ==> NextField(p) == (None, None)
    ensures p.Some? ==> NextField(p).0 == Some(FieldsOf(p)[0]) && FieldsOf(NextField(p).1) == FieldsOf(p)[1..]
  {
  }

  lemma {:induction false} SplitFirst(field: string, rest: string)
    requires ',' !in field
    ensures Split(field) == [field]
    ensures Split(field + "," + rest) == [field] + Split(rest)
  {
    var s := field + "," + rest;
    assert IndexOf(field, ',') == |field|;
    assert s[|field|] == ',' && forall k :: 0 <= k < |field| ==> s[k] == field[k];
    assert IndexOf(s, ',') == |field|;
    assert s[..|field|] == field && s[|field| + 1..] == rest;
  }

  /** Fields without commas are told apart again. */
  lemma {:induction false} SplitOfJoin(fs: seq<string>)
    requires fs != [] && NoCommas(fs)
    ensures Split(Join(fs)) == fs
  {
    if |fs| == 1 {
      SplitFirst(fs[0], "");
      assert fs == [fs[0]];
    } else {
      SplitFirst(fs[0], Join(fs[1..]));
      SplitOfJoin(fs[1..]);
      assert fs == [fs[0]] + fs[1..];
    }
  }

  /** And every text is its fields with commas between. */
  lemma {:induction false} JoinOfSplit(s: string)
    ensures Join(Split(s)) == s && NoCommas(Split(s))
    decreases |s|
  {
    var i := IndexOf(s, ',');
    if i < |s| {
      JoinOfSplit(s[i + 1..]);
      CommaCut(s, i);
      assert Split(s)[1..] == Split(s[i + 1..]);
    }
  }

  lemma CommaCut(s: string, i: nat)
    requires i < |s| && s[i] == ','
    ensures s[..i] + "," + s[i + 1..] == s
  {
  }

  lemma {:induction false} JoinConcat(a: seq<string>, b: seq<string>)
    requires a != [] && b != []
    ensures Join(a + b) == Join(a) + "," + Join(b)
  {
    assert (a + b)[1..] == a[1..] + b;
    if |a| > 1 {
      JoinConcat(a[1..], b);
    } else {
      assert a[1..] + b == b;
    }
  }

  // ------------------------------------------------------------ in place

  /** A pointer into a buffer: NULL, or something with a terminator at or behind it. */
  predicate Points(buf: seq<char>, p: int) {
    p < 0 || (p < |buf| && '\0' in buf[p..])
  }

  /** What a pointer points at. */
  function Text(buf: seq<char>, p: int): Cursor
    requires Points(buf, p)
  {
    if p < 0 then None else Some(CString(buf[p..]))
  }

  lemma CStringCut(s: string, k: nat)
    requires k <= IndexOf(s, '\0')
    ensures CString(s[k..]) == CString(s)[k..]
  {
    var n := IndexOf(s, '\0');
    assert n < |s| ==> s[k..][n - k] == '\0';
    assert forall j :: 0 <= j < n - k ==> s[k..][j] == s[k + j];
    assert IndexOf(s[k..], '\0') == n - k;
  }

  lemma CStringEnds(s: string, n: nat)
    requires n < |s| && s[n] == '\0' && forall k :: 0 <= k < n ==> s[k] != '\0'
    ensures CString(s) == s[..n]
  {
  }

  /** Writing a terminator over the first comma leaves the field in front and the rest behind. */
  lemma CutAtComma(old_: string, new_: string, n: nat)
    requires n < |old_| && old_[n] == ',' && new_ == old_[n := '\0']
    requires forall k :: 0 <= k < n ==> old_[k] != ',' && old_[k] != '\0'
    ensures NextField(Some(CString(old_))) == (Some(CString(new_)), Some(CString(new_[n + 1..])))
  {
    var s := CString(old_);
    assert n < IndexOf(old_, '\0');
    assert s[n] == ',' && forall k :: 0 <= k < n ==> s[k] == old_[k];
    assert IndexOf(s, ',') == n;
    CStringEnds(new_, n);
    assert new_[..n] == s[..n];
    assert new_[n + 1..] == old_[n + 1..];
    CStringCut(old_, n + 1);
  }

  /** `strchr(&buf[p], ',')`: the comma, or the terminator if there is none. */
  method FindComma(buf: array<char>, p: nat) returns (i: nat)
    requires Points(buf[..], p)
    ensures StopsAt(buf[..], p, i) && '\0' in buf[..][i..]
  {
    i := p;
    while buf[i] != ',' && buf[i] != '\0'
      invariant p <= i < buf.Length && '\0' in buf[..][i..]
      invariant forall k :: p <= k < i ==> buf[k] != ',' && buf[k] != '\0'
      decreases buf.Length - i
    {
      i := i + 1;
    }
  }

  /** The next comma or terminator of a text that starts at `p`. */
  predicate StopsAt(buf: string, p: nat, i: nat) {
    && p <= i < |buf| && (buf[i] == ',' || buf[i] == '\0')
    && forall k :: p <= k < i ==> buf[k] != ',' && buf[k] != '\0'
  }

  /** A call of `next_field` on `*p` turned the buffer `was` into `now`, returned `field` and set `*p` to `rest`. */
  predicate Taken(was: string, p: int, now: string, field: int, rest: int) {
    && Points(was, p) && Points(now, field) && Points(now, rest)
    && (Text(now, field), Text(now, rest)) == NextField(Text(was, p))
    && |now| == |was| && (p < 0 || now[..p] == was[..p])
  }

  lemma LastField(buf: string, p: nat, i: nat)
    requires Points(buf, p) && StopsAt(buf, p, i) && buf[i] == '\0'
    ensures Taken(buf, p, buf, p, -1)
  {
    CStringEnds(buf[p..], i - p);
    assert IndexOf(CString(buf[p..]), ',') == |CString(buf[p..])|;
  }

  lemma CutPoints(buf: string, p: nat, i: nat)
    requires Points(buf, p) && StopsAt(buf, p, i) && buf[i] == ',' && '\0' in buf[i..]
    ensures var cut := buf[i := '\0'];
            && Points(cut, p) && Points(cut, i + 1)
            && cut[p..] == buf[p..][i - p := '\0'] && cut[p..][i - p + 1..] == cut[i + 1..]
            && cut[..p] == buf[..p]
  {
    var cut := buf[i := '\0'];
    assert buf[i..][0] == ',';
    assert cut[i + 1..] == buf[i..][1..];
    assert cut[p..][i - p] == '\0';
  }

  lemma TakenField(buf: string, p: nat, i: nat)
    requires Points(buf, p) && StopsAt(buf, p, i) && buf[i] == ',' && '\0' in buf[i..]
    ensures Taken(buf, p, buf[i := '\0'], p, i + 1)
  {
    var cut := buf[i := '\0'];
    CutPoints(buf, p, i);
    CutAtComma(buf[p..], cut[p..], i - p);
  }

  /** `next_field`: `field` is what is returned, `rest` the new `*p`. */
  method NextFieldInPlace(buf: array<char>, p: int) returns (field: int, rest: int)
    requires Points(buf[..], p)
    modifies buf
    ensures Taken(old(buf[..]), p, buf[..], field, rest)
  {
    if p < 0 {
      return -1, -1;
    }
    var i := FindComma(buf, p);
    if buf[i] == '\0' {
      LastField(buf[..], p, i);
      return p, -1;
    }
    TakenField(buf[..], p, i);
    buf[i] := '\0';
    assert buf[..] == old(buf[..])[i := '\0'];
    field, rest := p, i + 1;
  }
}
