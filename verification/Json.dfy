/** The JSON the adapter writes and a server reads: integers, strings and objects, printed the way
    Python's json.dumps prints them (ASCII only, every other UTF-16 unit as \uXXXX) and read back
    by the part of RFC 8259's grammar that these take: its strings and objects, and of its numbers
    the integers. Fractions, exponents, arrays and literals are not part of this model. */
module Json {
  import opened Bytes

  /** A string as the UTF-16 code units its JSON escapes denote. */
  type unit = x: int | 0 <= x < 0x1_0000
  type Text = seq<unit>

  datatype Json = Num(n: int) | Str(s: Text) | Obj(members: Members)

  datatype Members = Nil | Member(key: Text, value: Json, rest: Members)

  /** The separators of json.dumps: ", " and ": " by default, or the compact "," and ":". */
  datatype Style = Style(comma: seq<byte>, colon: seq<byte>)

  const DEFAULT: Style := Style([44, 32], [58, 32])
  const COMPACT: Style := Style([44], [58])

  predicate IsStyle(st: Style) {
    st == DEFAULT || st == COMPACT
  }

  // ---------- printing ----------

  function Digits(n: nat): (d: seq<byte>)
    ensures |d| >= 1
  {
    if n < 10 then [48 + n] else Digits(n / 10) + [48 + n % 10]
  }

  function PrintNum(n: int): seq<byte> {
    if n < 0 then [45] + Digits(-n) else Digits(n)
  }

  function HexDigit(x: int): byte
    requires 0 <= x < 16
  {
    if x < 10 then 48 + x else 87 + x
  }

  function Escape(u: unit): (e: seq<byte>)
    ensures |e| >= 1
  {
    if u == 34 then [92, 34]
    else if u == 92 then [92, 92]
    else if u == 10 then [92, 110]
    else if u == 13 then [92, 114]
    else if u == 9 then [92, 116]
    else if u == 12 then [92, 102]
    else if u == 8 then [92, 98]
    else if 32 <= u <= 126 then [u]
    else [92, 117, HexDigit(u / 16 / 16 / 16), HexDigit(u / 16 / 16 % 16), HexDigit(u / 16 % 16), HexDigit(u % 16)]
  }

  function Escaped(s: Text): seq<byte> {
    if s == [] then [] else Escape(s[0]) + Escaped(s[1..])
  }

  function Quoted(s: Text): seq<byte> {
    [34] + (Escaped(s) + [34])
  }

  function Print(st: Style, j: Json): seq<byte> {
    match j
    case Num(n) => PrintNum(n)
    case Str(s) => Quoted(s)
    case Obj(ms) => [123] + (PrintMembers(st, ms) + [125])
  }

  function PrintMembers(st: Style, ms: Members): seq<byte> {
    match ms
    case Nil => []
    case Member(k, v, rest) =>
      Quoted(k) + (st.colon + (Print(st, v) + (if rest.Nil? then [] else st.comma + PrintMembers(st, rest))))
  }

  // ---------- reading ----------

  predicate IsDigit(b: byte) {
    48 <= b <= 57
  }

  /** Leading digits of s, read on top of acc, and what follows them. */
  function ReadDigits(s: seq<byte>, acc: nat): (r: (nat, seq<byte>))
    ensures |r.1| <= |s|
  {
    if s == [] || !IsDigit(s[0]) then (acc, s)
    else
      var d: int := s[0];
      ReadDigits(s[1..], 10 * acc + (d - 48))
  }

  /** A digit sequence without a superfluous leading zero. */
  function ReadNat(s: seq<byte>): (r: Option<(nat, seq<byte>)>)
    ensures r.Some? ==> |r.value.1| < |s|
  {
    if s == [] || !IsDigit(s[0]) then None
    else if s[0] == 48 then Some((0, s[1..]))
    else Some(ReadDigits(s[1..], s[0] - 48))
  }

  function ReadNum(s: seq<byte>): (r: Option<(int, seq<byte>)>)
    ensures r.Some? ==> |r.value.1| < |s|
  {
    if s != [] && s[0] == 45 then
      match ReadNat(s[1..])
      case None => None
      case Some((n, rest)) => var m: int := n; Some((-m, rest))
    else
      match ReadNat(s)
      case None => None
      case Some((n, rest)) => Some((n, rest))
  }

  function FromHex(b: byte): Option<int> {
    if IsDigit(b) then Some(b - 48)
    else if 97 <= b <= 102 then Some(b - 87)
    else if 65 <= b <= 70 then Some(b - 55)
    else None
  }

  function ReadHex4(s: seq<byte>): Option<unit> {
    if |s| < 4 then None
    else
      match (FromHex(s[0]), FromHex(s[1]), FromHex(s[2]), FromHex(s[3]))
      case (Some(a), Some(b), Some(c), Some(d)) =>
        var u := 4096 * a + 256 * b + 16 * c + d;
        if 0 <= u < 0x1_0000 then Some(u) else None
      case _ => None
  }

  /** One character of a string: itself, or an escape. */
  function ReadUnit(s: seq<byte>): (r: Option<(unit, seq<byte>)>)
    ensures r.Some? ==> |r.value.1| < |s|
  {
    if s == [] || s[0] < 32 || s[0] == 34 then None
    else if s[0] != 92 then Some((s[0], s[1..]))
    else if |s| < 2 then None
    else if s[1] == 117 then
      match ReadHex4(s[2..])
      case None => None
      case Some(u) => Some((u, s[6..]))
    else
      var plain := if s[1] == 110 then 10 else if s[1] == 114 then 13 else if s[1] == 116 then 9
                   else if s[1] == 102 then 12 else if s[1] == 98 then 8 else s[1];
      if s[1] in [34, 92, 47, 110, 114, 116, 102, 98] then Some((plain, s[2..])) else None
  }

  /** The rest of a string after its opening quote. */
  function ReadText(s: seq<byte>): (r: Option<(Text, seq<byte>)>)
    ensures r.Some? ==> |r.value.1| < |s|
  {
    if s == [] then None
    else if s[0] == 34 then Some(([], s[1..]))
    else
      match ReadUnit(s)
      case None => None
      case Some((u, rest)) =>
        match ReadText(rest)
        case None => None
        case Some((us, tail)) => Some(([u] + us, tail))
  }

  function SkipSpace(s: seq<byte>): (r: seq<byte>)
    ensures |r| <= |s|
  {
    if s != [] && s[0] in [32, 9, 10, 13] then SkipSpace(s[1..]) else s
  }

  function ReadValue(s0: seq<byte>): (r: Option<(Json, seq<byte>)>)
    ensures r.Some? ==> |r.value.1| < |s0|
    decreases |s0|, 1
  {
    var s := SkipSpace(s0);
    if s == [] then None
    else if s[0] == 34 then
      match ReadText(s[1..])
      case None => None
      case Some((t, rest)) => Some((Str(t), rest))
    else if s[0] == 123 then
      var t := SkipSpace(s[1..]);
      if t != [] && t[0] == 125 then Some((Obj(Nil), t[1..]))
      else
        match ReadMembers(t)
        case None => None
        case Some((ms, rest)) => Some((Obj(ms), rest))
    else
      match ReadNum(s)
      case None => None
      case Some((n, rest)) => Some((Num(n), rest))
  }

  /** A key, a colon and a value. */
  function ReadField(s: seq<byte>): (r: Option<(Text, Json, seq<byte>)>)
    ensures r.Some? ==> |r.value.2| < |s|
    decreases |s|, 0
  {
    if s == [] || s[0] != 34 then None
    else
      match ReadText(s[1..])
      case None => None
      case Some((key, t0)) =>
        var t := SkipSpace(t0);
        if t == [] || t[0] != 58 then None
        else
          match ReadValue(t[1..])
          case None => None
          case Some((v, rest)) => Some((key, v, rest))
  }

  /** One or more members and the closing brace. */
  function ReadMembers(s: seq<byte>): (r: Option<(Members, seq<byte>)>)
    ensures r.Some? ==> |r.value.1| < |s|
    decreases |s|, 1
  {
    match ReadField(s)
    case None => None
    case Some((key, v, u0)) =>
      var u := SkipSpace(u0);
      if u == [] then None
      else if u[0] == 125 then Some((Member(key, v, Nil), u[1..]))
      else if u[0] != 44 then None
      else
        match ReadMembers(SkipSpace(u[1..]))
        case None => None
        case Some((ms, rest)) => Some((Member(key, v, ms), rest))
  }

  /** A whole text is one value with nothing but space around it. */
  function Parse(s: seq<byte>): Option<Json> {
    match ReadValue(s)
    case None => None
    case Some((j, rest)) => if SkipSpace(rest) == [] then Some(j) else None
  }

  // ---------- what was printed reads back ----------

  predicate AllDigits(d: seq<byte>) {
    forall i :: 0 <= i < |d| ==> IsDigit(d[i])
  }

  /** The number a digit sequence denotes after acc. */
  function Value(acc: nat, d: seq<byte>): nat
    requires AllDigits(d)
  {
    if d == [] then acc
    else
      var x: int := d[|d| - 1];
      10 * Value(acc, d[..|d| - 1]) + (x - 48)
  }

  lemma {:induction false} DigitsMean(n: nat)
    ensures AllDigits(Digits(n)) && Value(0, Digits(n)) == n
    ensures n > 0 ==> Digits(n)[0] != 48
  {
    if n >= 10 {
      DigitsMean(n / 10);
      assert Digits(n)[..|Digits(n)| - 1] == Digits(n / 10);
    } else {
      assert Digits(n)[..0] == [];
      assert Value(0, Digits(n)[..0]) == 0;
    }
  }

  /** The next byte, if any, does not continue a number. */
  predicate Ends(tail: seq<byte>) {
    tail == [] || !IsDigit(tail[0])
  }

  lemma {:induction false} ValueFromLeft(acc: nat, d: seq<byte>)
    requires AllDigits(d) && d != []
    ensures Value(acc, d) == Value(10 * acc + (d[0] as int - 48), d[1..])
  {
    var n := |d| - 1;
    if n == 0 {
      assert d[..0] == [] && d[1..] == [];
    } else {
      ValueFromLeft(acc, d[..n]);
      assert d[..n][1..] == d[1..][..n - 1];
    }
  }

  lemma {:induction false} DigitsReadBack(d: seq<byte>, acc: nat, tail: seq<byte>)
    requires AllDigits(d) && Ends(tail)
    ensures ReadDigits(d + tail, acc) == (Value(acc, d), tail)
  {
    if d == [] {
      assert d + tail == tail;
    } else {
      ValueFromLeft(acc, d);
      assert (d + tail)[1..] == d[1..] + tail;
      DigitsReadBack(d[1..], 10 * acc + (d[0] as int - 48), tail);
    }
  }

  lemma NatReadsBack(n: nat, tail: seq<byte>)
    requires Ends(tail)
    ensures ReadNat(Digits(n) + tail) == Some((n, tail))
  {
    var d := Digits(n);
    DigitsMean(n);
    assert (d + tail)[1..] == d[1..] + tail;
    if n == 0 {
      assert d[1..] + tail == tail;
    } else {
      ValueFromLeft(0, d);
      DigitsReadBack(d[1..], d[0] as int - 48, tail);
    }
  }

  lemma ReadsMinus(d: seq<byte>, n: int, tail: seq<byte>)
    requires n <= 0 && ReadNat(d + tail) == Some((-n, tail))
    ensures ReadNum([45] + d + tail) == Some((n, tail))
  {
    assert ([45] + d + tail)[1..] == d + tail;
  }

  lemma NumReadsBack(n: int, tail: seq<byte>)
    requires Ends(tail)
    ensures ReadNum(PrintNum(n) + tail) == Some((n, tail))
    ensures PrintNum(n)[0] == 45 || IsDigit(PrintNum(n)[0])
  {
    if n < 0 {
      NatReadsBack(-n, tail);
      ReadsMinus(Digits(-n), n, tail);
    } else {
      NatReadsBack(n, tail);
      DigitsMean(n);
    }
  }

  lemma HexReadsBack(x: int)
    requires 0 <= x < 16
    ensures FromHex(HexDigit(x)) == Some(x)
  {
  }

  lemma HexUnit(u: unit, h: seq<byte>)
    requires |h| >= 4 && h[0] == HexDigit(u / 16 / 16 / 16) && h[1] == HexDigit(u / 16 / 16 % 16)
    requires h[2] == HexDigit(u / 16 % 16) && h[3] == HexDigit(u % 16)
    ensures ReadHex4(h) == Some(u)
  {
    HexReadsBack(u / 16 / 16 / 16);
    HexReadsBack(u / 16 / 16 % 16);
    HexReadsBack(u / 16 % 16);
    HexReadsBack(u % 16);
  }

  lemma UnitReadsBack(u: unit, tail: seq<byte>)
    ensures ReadUnit(Escape(u) + tail) == Some((u, tail))
    ensures Escape(u)[0] != 34
  {
    var e := Escape(u);
    if |e| == 6 {
      var h := (e + tail)[2..];
      assert h[0] == HexDigit(u / 16 / 16 / 16) && h[1] == HexDigit(u / 16 / 16 % 16);
      assert h[2] == HexDigit(u / 16 % 16) && h[3] == HexDigit(u % 16);
      HexUnit(u, h);
      assert (e + tail)[6..] == tail;
    } else {
      assert (e + tail)[|e|..] == tail;
    }
  }

  /** One step of the string reader. */
  lemma ReadsUnit(s: seq<byte>, u: unit, rest: seq<byte>, us: Text, tail: seq<byte>)
    requires s != [] && s[0] != 34 && ReadUnit(s) == Some((u, rest)) && ReadText(rest) == Some((us, tail))
    ensures ReadText(s) == Some(([u] + us, tail))
  {
  }

  lemma Regroup(a: seq<byte>, b: seq<byte>, c: seq<byte>, d: seq<byte>)
    ensures (a + b) + c + d == a + (b + c + d)
  {
  }

  lemma {:induction false} TextReadsBack(s: Text, tail: seq<byte>)
    ensures ReadText(Escaped(s) + [34] + tail) == Some((s, tail))
  {
    if s == [] {
      assert Escaped(s) + [34] + tail == [34] + tail;
      assert ([34] + tail)[1..] == tail;
    } else {
      var rest := Escaped(s[1..]) + [34] + tail;
      Regroup(Escape(s[0]), Escaped(s[1..]), [34], tail);
      UnitReadsBack(s[0], rest);
      TextReadsBack(s[1..], tail);
      ReadsUnit(Escape(s[0]) + rest, s[0], rest, s[1..], tail);
      assert [s[0]] + s[1..] == s;
    }
  }

  lemma QuotedReadsBack(s: Text, tail: seq<byte>)
    ensures (Quoted(s) + tail)[0] == 34
    ensures ReadText((Quoted(s) + tail)[1..]) == Some((s, tail))
  {
    assert (Quoted(s) + tail)[1..] == Escaped(s) + [34] + tail;
    TextReadsBack(s, tail);
  }

  // One step of the reader for each shape of input.

  lemma ReadsNum(s: seq<byte>, n: int, tail: seq<byte>)
    requires s != [] && (s[0] == 45 || IsDigit(s[0])) && ReadNum(s) == Some((n, tail))
    ensures ReadValue(s) == Some((Num(n), tail))
  {
  }

  lemma ReadsStr(s: seq<byte>, t: Text, tail: seq<byte>)
    requires s != [] && s[0] == 34 && ReadText(s[1..]) == Some((t, tail))
    ensures ReadValue(s) == Some((Str(t), tail))
  {
  }

  lemma ReadsEmpty(s: seq<byte>, tail: seq<byte>)
    requires s == [123, 125] + tail
    ensures ReadValue(s) == Some((Obj(Nil), tail))
  {
    assert s[1..] == [125] + tail;
    assert s[1..][1..] == tail;
  }

  lemma ReadsObj(s: seq<byte>, ms: Members, tail: seq<byte>)
    requires |s| >= 2 && s[0] == 123 && s[1] == 34 && ReadMembers(s[1..]) == Some((ms, tail))
    ensures ReadValue(s) == Some((Obj(ms), tail))
  {
    assert SkipSpace(s[1..]) == s[1..];
  }

  lemma ReadsField(s: seq<byte>, key: Text, colon: seq<byte>, v: Json, rest: seq<byte>)
    requires s != [] && s[0] == 34 && ReadText(s[1..]) == Some((key, colon))
    requires colon != [] && colon[0] == 58 && ReadValue(colon[1..]) == Some((v, rest))
    ensures ReadField(s) == Some((key, v, rest))
  {
  }

  lemma ReadsLast(s: seq<byte>, key: Text, v: Json, close: seq<byte>)
    requires ReadField(s) == Some((key, v, close)) && close != [] && close[0] == 125
    ensures ReadMembers(s) == Some((Member(key, v, Nil), close[1..]))
  {
  }

  lemma ReadsMore(s: seq<byte>, key: Text, v: Json, comma: seq<byte>, ms: Members, tail: seq<byte>)
    requires ReadField(s) == Some((key, v, comma))
    requires comma != [] && comma[0] == 44 && ReadMembers(SkipSpace(comma[1..])) == Some((ms, tail))
    ensures ReadMembers(s) == Some((Member(key, v, ms), tail))
  {
  }

  predicate NoSpace(s: seq<byte>) {
    s != [] && s[0] !in [32, 9, 10, 13]
  }

  lemma NumValue(n: int, tail: seq<byte>)
    requires Ends(tail)
    ensures ReadValue(PrintNum(n) + tail) == Some((Num(n), tail)) && NoSpace(PrintNum(n))
  {
    NumReadsBack(n, tail);
    var s := PrintNum(n);
    assert (s + tail)[0] == s[0];
    ReadsNum(s + tail, n, tail);
  }

  lemma StrValue(t: Text, tail: seq<byte>)
    ensures ReadValue(Quoted(t) + tail) == Some((Str(t), tail)) && NoSpace(Quoted(t))
  {
    QuotedReadsBack(t, tail);
    ReadsStr(Quoted(t) + tail, t, tail);
  }

  lemma Closed(body: seq<byte>, tail: seq<byte>)
    ensures var s := [123] + (body + [125]) + tail;
            s != [] && s[0] == 123 && s[1..] == body + ([125] + tail)
  {
  }

  lemma ObjValue(body: seq<byte>, ms: Members, tail: seq<byte>)
    requires body != [] && body[0] == 34 && ReadMembers(body + ([125] + tail)) == Some((ms, tail))
    ensures ReadValue([123] + (body + [125]) + tail) == Some((Obj(ms), tail))
  {
    Closed(body, tail);
    ReadsObj([123] + (body + [125]) + tail, ms, tail);
  }

  lemma {:induction false} ValueReadsBack(st: Style, j: Json, tail: seq<byte>)
    requires IsStyle(st) && Ends(tail)
    ensures ReadValue(Print(st, j) + tail) == Some((j, tail)) && NoSpace(Print(st, j))
    decreases j, 1
  {
    match j
    case Num(n) => NumValue(n, tail);
    case Str(t) => StrValue(t, tail);
    case Obj(ms) =>
      if ms.Nil? {
        assert Print(st, j) + tail == [123, 125] + tail;
        ReadsEmpty([123, 125] + tail, tail);
      } else {
        MembersReadBack(st, ms, tail);
        ObjValue(PrintMembers(st, ms), ms, tail);
      }
  }

  lemma {:induction false} MembersReadBack(st: Style, ms: Members, tail: seq<byte>)
    requires IsStyle(st) && ms.Member?
    ensures PrintMembers(st, ms) != [] && PrintMembers(st, ms)[0] == 34
    ensures ReadMembers(PrintMembers(st, ms) + ([125] + tail)) == Some((ms, tail))
    decreases ms, 0
  {
    var close := [125] + tail;
    if ms.rest.Nil? {
      ValueReadsBack(st, ms.value, close);
      LastReadsBack(st, ms.key, ms.value, Print(st, ms.value), tail);
      MembersSplit(st, ms, close);
    } else {
      var body := PrintMembers(st, ms.rest);
      MembersReadBack(st, ms.rest, tail);
      ValueReadsBack(st, ms.value, st.comma + (body + close));
      MoreReadBack(st, ms.key, ms.value, Print(st, ms.value), ms.rest, body, tail);
      MembersSplit(st, ms, close);
    }
  }

  lemma FieldReadsBack(st: Style, key: Text, v: Json, printed: seq<byte>, after: seq<byte>)
    requires IsStyle(st) && NoSpace(printed) && ReadValue(printed + after) == Some((v, after))
    ensures ReadField(Quoted(key) + (st.colon + (printed + after))) == Some((key, v, after))
  {
    var colon := st.colon + (printed + after);
    QuotedReadsBack(key, colon);
    SpaceBefore(st.colon[1..], printed + after);
    assert colon[1..] == st.colon[1..] + (printed + after);
    ReadsField(Quoted(key) + colon, key, colon, v, after);
  }

  lemma LastReadsBack(st: Style, key: Text, v: Json, printed: seq<byte>, tail: seq<byte>)
    requires IsStyle(st) && NoSpace(printed)
    requires ReadValue(printed + ([125] + tail)) == Some((v, [125] + tail))
    ensures ReadMembers(Quoted(key) + (st.colon + (printed + ([125] + tail)))) == Some((Member(key, v, Nil), tail))
  {
    FieldReadsBack(st, key, v, printed, [125] + tail);
    ReadsLast(Quoted(key) + (st.colon + (printed + ([125] + tail))), key, v, [125] + tail);
    assert ([125] + tail)[1..] == tail;
  }

  lemma AfterComma(st: Style, more: seq<byte>)
    requires IsStyle(st) && NoSpace(more)
    ensures var after := st.comma + more;
            after != [] && after[0] == 44 && SkipSpace(after[1..]) == more
  {
    var after := st.comma + more;
    SpaceBefore(st.comma[1..], more);
    assert after[1..] == st.comma[1..] + more;
  }

  lemma MoreReadBack(st: Style, key: Text, v: Json, printed: seq<byte>, ms: Members, body: seq<byte>, tail: seq<byte>)
    requires IsStyle(st) && NoSpace(printed) && body != [] && body[0] == 34
    requires ReadMembers(body + ([125] + tail)) == Some((ms, tail))
    requires var after := st.comma + (body + ([125] + tail)); ReadValue(printed + after) == Some((v, after))
    ensures ReadMembers(Quoted(key) + (st.colon + (printed + (st.comma + (body + ([125] + tail))))))
              == Some((Member(key, v, ms), tail))
  {
    var after := st.comma + (body + ([125] + tail));
    FieldReadsBack(st, key, v, printed, after);
    AfterComma(st, body + ([125] + tail));
    ReadsMore(Quoted(key) + (st.colon + (printed + after)), key, v, after, ms, tail);
  }

  lemma Nested(a: seq<byte>, b: seq<byte>, c: seq<byte>, d: seq<byte>, e: seq<byte>)
    ensures (a + (b + (c + d))) + e == a + (b + (c + (d + e)))
  {
  }

  /** The first printed member, its separator, and what follows it. */
  lemma MembersSplit(st: Style, ms: Members, close: seq<byte>)
    requires ms.Member?
    ensures PrintMembers(st, ms) != [] && PrintMembers(st, ms)[0] == 34
    ensures var after := if ms.rest.Nil? then close else st.comma + (PrintMembers(st, ms.rest) + close);
            PrintMembers(st, ms) + close == Quoted(ms.key) + (st.colon + (Print(st, ms.value) + after))
  {
    var more := if ms.rest.Nil? then [] else st.comma + PrintMembers(st, ms.rest);
    Nested(Quoted(ms.key), st.colon, Print(st, ms.value), more, close);
    if ms.rest.Nil? {
      assert more + close == close;
    } else {
      assert more + close == st.comma + (PrintMembers(st, ms.rest) + close);
    }
  }

  /** A separator's space is skipped. */
  lemma SpaceBefore(space: seq<byte>, s: seq<byte>)
    requires space == [] || space == [32]
    requires NoSpace(s)
    ensures SkipSpace(space + s) == s && ReadValue(space + s) == ReadValue(s)
  {
    if space == [] {
      assert space + s == s;
    } else {
      assert (space + s)[1..] == s;
    }
  }

  /** Reading back what json.dumps printed gives the object it printed. */
  lemma PrintReadsBack(st: Style, j: Json)
    requires IsStyle(st)
    ensures Parse(Print(st, j)) == Some(j)
  {
    ValueReadsBack(st, j, []);
    assert Print(st, j) + [] == Print(st, j);
  }
}
