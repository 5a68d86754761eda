/** The two readers of an fvecs file: the loop of sift1m/rostam_server/main.go and the
    reshape-and-drop-a-column reader of sift1m/rostam_py_client.py. A file is a run of vectors, each
    a little-endian length and that many little-endian 32-bit words; words are opaque. */
module Fvecs {
  import opened Bytes

  /** Go's binary.LittleEndian.Uint32 and numpy's "<i4" layout; the low 32 bits of v. */
  function PutL32(v: nat): (s: seq<byte>)
    ensures |s| == 4
  {
    [v % 256, v / 256 % 256, v / 256 / 256 % 256, v / 256 / 256 / 256 % 256]
  }

  function GetL32(s: seq<byte>): u32
    requires |s| == 4
  {
    s[0] + 256 * (s[1] + 256 * (s[2] + 256 * s[3] as int))
  }

  lemma L32ReadsBack(v: u32)
    ensures GetL32(PutL32(v)) == v
  {
    var a := v / 256;
    var b := a / 256;
    assert v == 256 * a + v % 256 && a == 256 * b + a % 256 && b == 256 * (b / 256) + b % 256;
  }

  lemma L32OfRead(s: seq<byte>)
    requires |s| == 4
    ensures PutL32(GetL32(s)) == s
  {
    var b: int := s[2] + 256 * s[3] as int;
    var a: int := s[1] + 256 * b;
    var v: int := s[0] + 256 * a;
    assert v / 256 == a && a / 256 == b && b / 256 == s[3];
  }

  /** The low byte comes first. */
  lemma LowFirst()
    ensures PutL32(0x0403_0201) == [1, 2, 3, 4] && GetL32([1, 2, 3, 4]) == 0x0403_0201
  {
  }

  type Vector = seq<u32>

  /** Vectors whose length a header can hold. */
  predicate Short(vs: seq<Vector>) {
    forall i :: 0 <= i < |vs| ==> |vs[i]| < TWO_32
  }

  datatype Outcome = Vectors(vs: seq<Vector>) | TruncatedHeader(at: nat) | TruncatedVector(at: nat)

  // ---------- the file format ----------

  function WriteWords(ws: seq<u32>): (s: seq<byte>)
    ensures |s| == 4 * |ws|
  {
    if ws == [] then [] else PutL32(ws[0]) + WriteWords(ws[1..])
  }

  function Write(vs: seq<Vector>): seq<byte> {
    if vs == [] then [] else PutL32(|vs[0]|) + (WriteWords(vs[0]) + Write(vs[1..]))
  }

  /** The words of a byte string; a last few bytes short of a word are dropped. */
  function Words(s: seq<byte>): (ws: seq<u32>)
    ensures |ws| == |s| / 4
  {
    if |s| < 4 then [] else [GetL32(s[..4])] + Words(s[4..])
  }

  lemma WordFirst(v: u32, more: seq<byte>)
    ensures var s := PutL32(v) + more;
            s[..4] == PutL32(v) && s[4..] == more && GetL32(s[..4]) == v && Words(s) == [v] + Words(more)
  {
    var s := PutL32(v) + more;
    assert s[..4] == PutL32(v) && s[4..] == more;
    L32ReadsBack(v);
  }

  lemma Assoc(a: seq<byte>, b: seq<byte>, c: seq<byte>)
    ensures a + b + c == a + (b + c)
  {
  }

  lemma {:induction false} WordsReadBack(ws: seq<u32>, tail: seq<byte>)
    ensures Words(WriteWords(ws) + tail) == ws + Words(tail)
  {
    if ws == [] {
      assert WriteWords(ws) + tail == tail;
    } else {
      Assoc(PutL32(ws[0]), WriteWords(ws[1..]), tail);
      WordFirst(ws[0], WriteWords(ws[1..]) + tail);
      WordsReadBack(ws[1..], tail);
      assert [ws[0]] + (ws[1..] + Words(tail)) == ws + Words(tail);
    }
  }

  lemma {:induction false} WriteOfWords(s: seq<byte>)
    requires |s| % 4 == 0
    ensures WriteWords(Words(s)) == s
  {
    if s != [] {
      L32OfRead(s[..4]);
      WriteOfWords(s[4..]);
      assert s == s[..4] + s[4..];
    }
  }

  // ---------- the Go reader ----------

  /** What is left of the file, from offset `at` on, read one vector at a time. */
  function Read(s: seq<byte>, at: nat): Outcome
    decreases |s|
  {
    if s == [] then Vectors([])
    else if |s| < 4 then TruncatedHeader(at)
    else
      var dim: nat := GetL32(s[..4]);
      var t := s[4..];
      if |t| < 4 * dim then TruncatedVector(at + 4)
      else Prepend(Words(t[..4 * dim]), Read(t[4 * dim..], at + 4 + 4 * dim))
  }

  function Prepend(v: Vector, rest: Outcome): Outcome {
    match rest
    case Vectors(vs) => Vectors([v] + vs)
    case _ => rest
  }

  /** Go on from the vectors read so far. */
  function After(out: seq<Vector>, rest: Outcome): Outcome {
    match rest
    case Vectors(vs) => Vectors(out + vs)
    case _ => rest
  }

  lemma AfterPrepend(out: seq<Vector>, v: Vector, rest: Outcome)
    ensures After(out, Prepend(v, rest)) == After(out + [v], rest)
  {
    if rest.Vectors? {
      assert out + ([v] + rest.vs) == out + [v] + rest.vs;
    }
  }

  lemma {:induction false} WordAt(s: seq<byte>, i: nat)
    requires 4 * i + 4 <= |s|
    ensures Words(s)[i] == GetL32(s[4 * i..4 * i + 4])
  {
    if i > 0 {
      var t := s[4..];
      WordAt(t, i - 1);
      SliceOfSlice(s, 4, |s|, 4 * i - 4, 4 * i);
      assert s[4..|s|] == t;
      assert t[4 * (i - 1)..4 * (i - 1) + 4] == s[4 * i..4 * i + 4];
    } else {
      assert s[..4] == s[4 * i..4 * i + 4];
    }
  }

  lemma SliceOfSlice(s: seq<byte>, a: nat, b: nat, c: nat, d: nat)
    requires c <= d && a + d <= b <= |s|
    ensures s[a..b][c..d] == s[a + c..a + d]
  {
    assert forall j :: 0 <= j < d - c ==> s[a..b][c..d][j] == s[a + c..a + d][j];
  }

  lemma WordAtOffset(data: seq<byte>, off: nat, dim: nat, i: nat)
    requires off + dim * 4 <= |data| && i < dim
    ensures Words(data[off..off + dim * 4])[i] == GetL32(data[off + i * 4..off + i * 4 + 4])
  {
    var s := data[off..off + dim * 4];
    WordAt(s, i);
    SliceOfSlice(data, off, off + dim * 4, 4 * i, 4 * i + 4);
  }

  /** The inner loop: one vector, word by word. */
  method ReadVector(data: seq<byte>, off: nat, dim: nat, end: nat) returns (v: seq<u32>)
    requires end == off + dim * 4 && end <= |data|
    ensures v == Words(data[off..end])
  {
    var a := new u32[dim];
    ghost var ws := Words(data[off..off + dim * 4]);
    for i := 0 to dim
      invariant forall k :: 0 <= k < i ==> a[k] == ws[k]
    {
      WordAtOffset(data, off, dim, i);
      a[i] := GetL32(data[off + i * 4..off + i * 4 + 4]);
    }
    return a[..];
  }

  lemma SuffixCuts(data: seq<byte>, off: nat, n: nat)
    requires off + n <= |data|
    ensures data[off..][..n] == data[off..off + n] && data[off..][n..] == data[off + n..]
  {
  }

  /** One step of the reader. */
  lemma ReadStep(s: seq<byte>, t: seq<byte>, v: Vector, more: seq<byte>, at: nat, end: nat)
    requires |s| >= 4 && GetL32(s[..4]) == |v| && s[4..] == t
    requires |t| >= 4 * |v| && Words(t[..4 * |v|]) == v && t[4 * |v|..] == more
    requires end == at + 4 + 4 * |v|
    ensures Read(s, at) == Prepend(v, Read(more, end))
  {
  }

  lemma WholeWords(s: seq<byte>, n: nat)
    requires |s| == 4 * n
    ensures |Words(s)| == n
  {
  }

  lemma ReadShort(s: seq<byte>, at: nat)
    requires |s| >= 4 && |s| - 4 < 4 * GetL32(s[..4])
    ensures Read(s, at) == TruncatedVector(at + 4)
  {
  }

  /** One step of the reader, from an offset into the file. */
  lemma ReadsOne(data: seq<byte>, off: nat, dim: nat, end: nat)
    requires off + 4 <= |data| && dim == GetL32(data[off..off + 4])
    requires end == off + 4 + 4 * dim && end <= |data|
    ensures Read(data[off..], off) == Prepend(Words(data[off + 4..end]), Read(data[end..], end))
  {
    SuffixCuts(data, off, 4);
    SuffixCuts(data, off + 4, 4 * dim);
    WholeWords(data[off + 4..end], dim);
    ReadStep(data[off..], data[off + 4..], Words(data[off + 4..end]), data[end..], off, end);
  }

  lemma ReadsNone(data: seq<byte>, off: nat)
    requires off < |data|
    ensures off + 4 > |data| ==> Read(data[off..], off) == TruncatedHeader(off)
    ensures off + 4 <= |data| && off + 4 + 4 * GetL32(data[off..off + 4]) > |data| ==>
              Read(data[off..], off) == TruncatedVector(off + 4)
  {
    if off + 4 <= |data| && off + 4 + 4 * GetL32(data[off..off + 4]) > |data| {
      SuffixCuts(data, off, 4);
      ReadShort(data[off..], off);
    }
  }

  /** What the vectors read so far and the rest of the file still promise. */
  function Promise(data: seq<byte>, out: seq<Vector>, off: nat): Outcome
    requires off <= |data|
  {
    After(out, Read(data[off..], off))
  }

  lemma Continues(data: seq<byte>, out: seq<Vector>, off: nat, body: nat, dim: nat, end: nat)
    requires body == off + 4 && body <= |data| && dim == GetL32(data[off..body])
    requires end == body + 4 * dim && end <= |data|
    ensures |Words(data[body..end])| < TWO_32
    ensures Promise(data, out, off) == Promise(data, out + [Words(data[body..end])], end)
  {
    WholeWords(data[body..end], dim);
    ReadsOne(data, off, dim, end);
    AfterPrepend(out, Words(data[body..end]), Read(data[end..], end));
  }

  lemma GivesUp(data: seq<byte>, out: seq<Vector>, off: nat)
    requires off < |data|
    ensures off + 4 > |data| ==> Promise(data, out, off) == TruncatedHeader(off)
    ensures off + 4 <= |data| && off + 4 + 4 * GetL32(data[off..off + 4]) > |data| ==>
              Promise(data, out, off) == TruncatedVector(off + 4)
  {
    ReadsNone(data, off);
  }

  lemma Promises(data: seq<byte>, out: seq<Vector>)
    ensures Promise(data, [], 0) == Read(data, 0)
    ensures Promise(data, out, |data|) == Vectors(out)
  {
    assert data[0..] == data;
    assert Read(data, 0).Vectors? ==> [] + Read(data, 0).vs == Read(data, 0).vs;
  }

  method ReadFvecs(data: seq<byte>) returns (r: Outcome)
    ensures r == Read(data, 0)
  {
    var out: seq<Vector> := [];
    var off := 0;
    ghost var goal := Promise(data, [], 0);
    Promises(data, []);
    while off < |data|
      invariant off <= |data|
      invariant goal == Promise(data, out, off)
      decreases |data| - off
    {
      GivesUp(data, out, off);
      if off + 4 > |data| {
        return TruncatedHeader(off);
      }
      var dim: nat := GetL32(data[off..off + 4]);
      off := off + 4;
      var end := off + dim * 4;
      if end > |data| {
        return TruncatedVector(off);
      }
      Continues(data, out, off - 4, off, dim, end);
      var v := ReadVector(data, off, dim, end);
      out := out + [v];
      off := end;
    }
    Promises(data, out);
    return Vectors(out);
  }

  // ---------- reading against writing ----------

  /** Why reading stops: the file's end, a short header, or a header that announces more than
      there is. `at` is where the last whole vector ends. */
  predicate Ends(tail: seq<byte>, at: nat, r: Outcome) {
    if tail == [] then r.Vectors?
    else if |tail| < 4 then r == TruncatedHeader(at)
    else |tail| < 4 + 4 * GetL32(tail[..4]) && r == TruncatedVector(at + 4)
  }

  /** The rest of the file is vs as written, then a tail at which reading stops. */
  ghost predicate Splits(s: seq<byte>, at: nat, vs: seq<Vector>, tail: seq<byte>, r: Outcome) {
    && Short(vs) && s == Write(vs) + tail
    && Ends(tail, at + |Write(vs)|, r)
    && (tail == [] ==> r == Vectors(vs))
  }

  lemma Rejoin(s: seq<byte>, head: seq<byte>, mid: seq<byte>, n: nat)
    requires |s| >= 4 + n && head == s[..4] && mid == s[4..][..n]
    ensures s == head + (mid + s[4..][n..])
  {
  }

  lemma Parts(a: seq<byte>, b: seq<byte>)
    ensures (a + b)[..|a|] == a && (a + b)[|a|..] == b
  {
  }

  lemma Regroup(a: seq<byte>, b: seq<byte>, c: seq<byte>, d: seq<byte>)
    ensures a + (b + (c + d)) == (a + (b + c)) + d
  {
  }

  function Framed(v: Vector, more: seq<byte>): seq<byte> {
    PutL32(|v|) + (WriteWords(v) + more)
  }

  lemma FirstVector(v: Vector, more: seq<byte>, at: nat, end: nat)
    requires |v| < TWO_32 && end == at + 4 + 4 * |v|
    ensures Read(Framed(v, more), at) == Prepend(v, Read(more, end))
  {
    var t := WriteWords(v) + more;
    WordFirst(|v|, t);
    Parts(WriteWords(v), more);
    WordsReadBack(v, []);
    assert WriteWords(v) + [] == WriteWords(v);
    ReadStep(PutL32(|v|) + t, t, v, more, at, end);
  }

  lemma ReadStops(tail: seq<byte>, at: nat, r: Outcome)
    requires Ends(tail, at, r) && (tail == [] ==> r == Vectors([]))
    ensures Read(tail, at) == r
  {
  }

  lemma WriteFirst(vs: seq<Vector>, tail: seq<byte>)
    requires vs != []
    ensures |Write(vs)| == 4 + 4 * |vs[0]| + |Write(vs[1..])|
    ensures Write(vs) + tail == Framed(vs[0], Write(vs[1..]) + tail)
  {
    Regroup(PutL32(|vs[0]|), WriteWords(vs[0]), Write(vs[1..]), tail);
  }

  /** A whole vector at the front of the file. */
  lemma OneVector(s: seq<byte>) returns (v: Vector, more: seq<byte>)
    requires |s| >= 4 && |s| >= 4 + 4 * GetL32(s[..4])
    ensures s == Framed(v, more) && |more| < |s| && |v| < TWO_32
  {
    var dim: nat, t := GetL32(s[..4]), s[4..];
    v, more := Words(t[..4 * dim]), t[4 * dim..];
    L32OfRead(s[..4]);
    WriteOfWords(t[..4 * dim]);
    Rejoin(s, PutL32(|v|), WriteWords(v), 4 * dim);
  }

  lemma StopsShort(s: seq<byte>, at: nat)
    requires |s| < 4 || |s| < 4 + 4 * GetL32(s[..4])
    ensures Ends(s, at, Read(s, at)) && (s == [] ==> Read(s, at) == Vectors([]))
  {
  }

  lemma SplitsMore(v: Vector, more: seq<byte>, at: nat, end: nat, vs: seq<Vector>, tail: seq<byte>, r: Outcome)
    requires |v| < TWO_32 && end == at + 4 + 4 * |v| && Splits(more, end, vs, tail, r)
    ensures Splits(Framed(v, more), at, [v] + vs, tail, Prepend(v, r))
  {
    var all := [v] + vs;
    assert all[1..] == vs;
    WriteFirst(all, tail);
  }

  /** Every file is some vectors as written and a tail at which reading stops: reading inverts
      writing, and fails only at a truncated header or vector, at the offset it names. */
  lemma {:induction false} ReadSplits(s: seq<byte>, at: nat) returns (vs: seq<Vector>, tail: seq<byte>)
    ensures Splits(s, at, vs, tail, Read(s, at))
    decreases |s|
  {
    if |s| < 4 || |s| < 4 + 4 * GetL32(s[..4]) {
      vs, tail := [], s;
      assert s == [] + tail;
      StopsShort(s, at);
    } else {
      var v, more := OneVector(s);
      var rest;
      var end := at + 4 + 4 * |v|;
      rest, tail := ReadSplits(more, end);
      vs := [v] + rest;
      FirstOf(s, v, more, at, end);
      SplitsMore(v, more, at, end, rest, tail, Read(more, end));
    }
  }

  lemma FirstOf(s: seq<byte>, v: Vector, more: seq<byte>, at: nat, end: nat)
    requires s == Framed(v, more) && |v| < TWO_32 && end == at + 4 + 4 * |v|
    ensures Read(s, at) == Prepend(v, Read(more, end))
  {
    FirstVector(v, more, at, end);
  }

  lemma PeelOne(vs: seq<Vector>, tail: seq<byte>, at: nat, end: nat)
    requires vs != [] && |vs[0]| < TWO_32 && end == at + 4 + 4 * |vs[0]|
    ensures Read(Write(vs) + tail, at) == Prepend(vs[0], Read(Write(vs[1..]) + tail, end))
  {
    WriteFirst(vs, tail);
    FirstOf(Write(vs) + tail, vs[0], Write(vs[1..]) + tail, at, end);
  }

  lemma HeadTail(vs: seq<Vector>)
    requires vs != []
    ensures [vs[0]] + vs[1..] == vs
  {
  }

  lemma NoneBefore(tail: seq<byte>, rest: Outcome)
    ensures Write([]) + tail == tail && |Write([])| == 0 && After([], rest) == rest
  {
    assert rest.Vectors? ==> [] + rest.vs == rest.vs;
  }

  /** The other way round: what was written reads back, and reading goes on after it. */
  lemma {:induction false} WrittenReads(at: nat, vs: seq<Vector>, tail: seq<byte>, end: nat)
    requires Short(vs) && end == at + |Write(vs)|
    ensures Read(Write(vs) + tail, at) == After(vs, Read(tail, end))
    decreases |vs|
  {
    if vs == [] {
      NoneBefore(tail, Read(tail, at));
    } else {
      WriteFirst(vs, tail);
      var next := at + 4 + 4 * |vs[0]|;
      PeelOne(vs, tail, at, next);
      WrittenReads(next, vs[1..], tail, end);
      PrependAfter(vs[0], vs[1..], Read(tail, end));
      HeadTail(vs);
    }
  }

  lemma PrependAfter(v: Vector, out: seq<Vector>, rest: Outcome)
    ensures Prepend(v, After(out, rest)) == After([v] + out, rest)
  {
    if rest.Vectors? {
      assert [v] + (out + rest.vs) == [v] + out + rest.vs;
    }
  }

  lemma NothingMore(s: seq<byte>, vs: seq<Vector>)
    ensures s + [] == s && After(vs, Vectors([])) == Vectors(vs)
  {
    assert vs + [] == vs;
  }

  lemma ReadsNothing(at: nat)
    ensures Read([], at) == Vectors([])
  {
  }

  lemma EndsWhole(s: seq<byte>, vs: seq<Vector>, at: nat)
    requires Read(s + [], 0) == After(vs, Read([], at))
    ensures Read(s, 0) == Vectors(vs)
  {
    ReadsNothing(at);
    NothingMore(s, vs);
  }

  lemma ReadsWhole(vs: seq<Vector>)
    requires Short(vs)
    ensures Read(Write(vs), 0) == Vectors(vs)
  {
    WrittenReads(0, vs, [], |Write(vs)|);
    EndsWhole(Write(vs), vs, |Write(vs)|);
  }

  lemma ReadsCut(vs: seq<Vector>, tail: seq<byte>, r: Outcome)
    requires Short(vs) && tail != [] && Ends(tail, |Write(vs)|, r)
    ensures Read(Write(vs) + tail, 0) == r
  {
    WrittenReads(0, vs, tail, |Write(vs)|);
    ReadStops(tail, |Write(vs)|, r);
    AfterStop(vs, tail, |Write(vs)|, r);
  }

  /** What stops the reader is not changed by the vectors before it. */
  lemma AfterStop(vs: seq<Vector>, tail: seq<byte>, at: nat, r: Outcome)
    requires tail != [] && Ends(tail, at, r)
    ensures After(vs, r) == r
  {
  }

  /** A file reads as vs exactly when it is vs as written. */
  lemma ReadInvertsWrite(data: seq<byte>, vs: seq<Vector>)
    ensures Read(data, 0) == Vectors(vs) <==> Short(vs) && data == Write(vs)
  {
    if Read(data, 0) == Vectors(vs) {
      var us, tail := ReadSplits(data, 0);
      assert Write(us) + [] == Write(us);
    }
    if Short(vs) && data == Write(vs) {
      ReadsWhole(vs);
    }
  }

  /** It is refused exactly when a truncated header or vector follows some whole vectors, and the
      error says where. */
  lemma FailsOnlyTruncated(data: seq<byte>, r: Outcome)
    requires !r.Vectors?
    ensures Read(data, 0) == r <==> exists vs, tail :: Splits(data, 0, vs, tail, r)
  {
    if Read(data, 0) == r {
      var vs, tail := ReadSplits(data, 0);
    }
    if vs, tail :| Splits(data, 0, vs, tail, r) {
      ReadsCut(vs, tail, r);
    }
  }

  // ---------- the numpy reader ----------

  function ToI32(v: u32): int {
    if v < TWO_31 then v else v - TWO_32
  }

  /** Rows of w words, each without its first. */
  function Rows(ws: seq<u32>, w: nat): seq<seq<u32>>
    requires w >= 1
  {
    if |ws| < w then [] else [ws[1..w]] + Rows(ws[w..], w)
  }

  /** The words that fill no whole row. */
  function Leftover(ws: seq<u32>, w: nat): seq<u32>
    requires w >= 1
  {
    if |ws| < w then ws else Leftover(ws[w..], w)
  }

  /** None where numpy raises: no first word, a width that is not positive, or words left over
      after the last row. */
  function Reshape(data: seq<byte>): Option<seq<seq<u32>>> {
    ReshapeWords(Words(data))
  }

  function ReshapeWords(x: seq<u32>): Option<seq<seq<u32>>> {
    if x == [] then None
    else
      var w := ToI32(x[0]) + 1;
      if w <= 0 || Leftover(x, w) != [] then None else Some(Rows(x, w))
  }

  function Flat(vs: seq<Vector>): seq<u32>
    requires Short(vs)
  {
    if vs == [] then [] else [|vs[0]|] + (vs[0] + Flat(vs[1..]))
  }

  lemma {:induction false} WordsOfWrite(vs: seq<Vector>)
    requires Short(vs)
    ensures Words(Write(vs)) == Flat(vs)
  {
    if vs != [] {
      WordFirst(|vs[0]|, WriteWords(vs[0]) + Write(vs[1..]));
      WordsReadBack(vs[0], Write(vs[1..]));
      WordsOfWrite(vs[1..]);
    }
  }

  predicate Uniform(vs: seq<Vector>, d: nat) {
    forall i :: 0 <= i < |vs| ==> |vs[i]| == d
  }

  lemma CutRow(n: u32, v: seq<u32>, rest: seq<u32>)
    ensures var ws := [n] + (v + rest); ws[1..|v| + 1] == v && ws[|v| + 1..] == rest
  {
  }

  lemma {:induction false} RowsOfFlat(vs: seq<Vector>, d: nat)
    requires Uniform(vs, d) && d < TWO_32
    ensures Short(vs) && Leftover(Flat(vs), d + 1) == [] && Rows(Flat(vs), d + 1) == vs
  {
    if vs != [] {
      var ws, rest := Flat(vs), Flat(vs[1..]);
      RowsOfFlat(vs[1..], d);
      CutRow(|vs[0]|, vs[0], rest);
      assert [vs[0]] + vs[1..] == vs;
    }
  }

  lemma {:induction false} RowsUniform(ws: seq<u32>, w: nat, i: nat)
    requires w >= 1 && i < |Rows(ws, w)|
    ensures |Rows(ws, w)[i]| == w - 1
  {
    if i > 0 {
      RowsUniform(ws[w..], w, i - 1);
    }
  }

  lemma SameWidth(vs: seq<Vector>)
    requires Short(vs) && vs != [] && Rows(Flat(vs), |vs[0]| + 1) == vs
    ensures Uniform(vs, |vs[0]|)
  {
    forall i | 0 <= i < |vs|
      ensures |vs[i]| == |vs[0]|
    {
      RowsUniform(Flat(vs), |vs[0]| + 1, i);
    }
  }

  /** On a file the first reader accepts, the second returns the same vectors exactly when there
      are some and they all have one dimension, below 2^31. */
  lemma ReadersAgreeIff(data: seq<byte>, vs: seq<Vector>)
    requires Read(data, 0) == Vectors(vs)
    ensures Reshape(data) == Some(vs) <==> vs != [] && |vs[0]| < TWO_31 && Uniform(vs, |vs[0]|)
  {
    ReadInvertsWrite(data, vs);
    WordsOfWrite(vs);
    ReshapeFlat(vs);
  }

  lemma FlatHead(vs: seq<Vector>)
    requires Short(vs) && vs != []
    ensures Flat(vs) != [] && Flat(vs)[0] == |vs[0]|
  {
  }

  lemma ReshapeIs(x: seq<u32>, d: nat, rows: seq<seq<u32>>)
    requires x != [] && x[0] == d
    ensures ReshapeWords(x) == Some(rows) <==> d < TWO_31 && Leftover(x, d + 1) == [] && Rows(x, d + 1) == rows
  {
  }

  lemma ReshapeFlat(vs: seq<Vector>)
    requires Short(vs)
    ensures ReshapeWords(Flat(vs)) == Some(vs) <==> vs != [] && |vs[0]| < TWO_31 && Uniform(vs, |vs[0]|)
  {
    if vs != [] {
      FlatHead(vs);
      ReshapeIs(Flat(vs), |vs[0]|, vs);
      SameWidthIff(vs);
    }
  }

  lemma SameWidthIff(vs: seq<Vector>)
    requires Short(vs) && vs != []
    ensures Uniform(vs, |vs[0]|) <==> Leftover(Flat(vs), |vs[0]| + 1) == [] && Rows(Flat(vs), |vs[0]| + 1) == vs
  {
    if Uniform(vs, |vs[0]|) {
      RowsOfFlat(vs, |vs[0]|);
    } else if Rows(Flat(vs), |vs[0]| + 1) == vs {
      SameWidth(vs);
    }
  }

  /** Rows with a word before each. */
  function Woven(heads: seq<u32>, rows: seq<seq<u32>>): seq<u32>
    requires |heads| == |rows|
  {
    if rows == [] then [] else [heads[0]] + (rows[0] + Woven(heads[1..], rows[1..]))
  }

  lemma {:induction false} RowsOfWoven(heads: seq<u32>, rows: seq<seq<u32>>, d: nat)
    requires |heads| == |rows| && Uniform(rows, d)
    ensures Leftover(Woven(heads, rows), d + 1) == [] && Rows(Woven(heads, rows), d + 1) == rows
  {
    if rows != [] {
      RowsOfWoven(heads[1..], rows[1..], d);
      CutRow(heads[0], rows[0], Woven(heads[1..], rows[1..]));
      assert [rows[0]] + rows[1..] == rows;
    }
  }

  lemma {:induction false} WeaveRows(x: seq<u32>, d: nat) returns (heads: seq<u32>)
    requires Leftover(x, d + 1) == []
    ensures var rows := Rows(x, d + 1);
            |heads| == |rows| && Uniform(rows, d) && x == Woven(heads, rows) && (x != [] ==> rows != [] && heads[0] == x[0])
    decreases |x|
  {
    if x == [] {
      return [];
    }
    var more := WeaveRows(x[d + 1..], d);
    heads := [x[0]] + more;
    var rows := Rows(x, d + 1);
    assert rows[0] == x[1..d + 1] && rows[1..] == Rows(x[d + 1..], d + 1);
    assert heads[1..] == more;
    assert x == [x[0]] + (x[1..d + 1] + x[d + 1..]);
  }

  /** x is the rows, all of one width below 2^31, each behind a word, the first of which names the
      width. */
  ghost predicate Weaves(x: seq<u32>, heads: seq<u32>, rows: seq<seq<u32>>) {
    && |heads| == |rows| && rows != [] && heads[0] == |rows[0]| < 0x8000_0000
    && Uniform(rows, |rows[0]|) && x == Woven(heads, rows)
  }

  lemma Unweaves(x: seq<u32>, rows: seq<seq<u32>>) returns (heads: seq<u32>)
    requires ReshapeWords(x) == Some(rows)
    ensures Weaves(x, heads, rows)
  {
    var d: nat := x[0];
    ReshapeIs(x, d, rows);
    heads := WeaveRows(x, d);
    assert |rows[0]| == d;
  }

  lemma WeaveReads(x: seq<u32>, heads: seq<u32>, rows: seq<seq<u32>>)
    requires Weaves(x, heads, rows)
    ensures ReshapeWords(x) == Some(rows)
  {
    RowsOfWoven(heads, rows, |rows[0]|);
    ReshapeIs(x, |rows[0]|, rows);
  }

  ghost predicate AreRows(x: seq<u32>, rows: seq<seq<u32>>) {
    exists heads :: Weaves(x, heads, rows)
  }

  lemma RowsIff(x: seq<u32>, rows: seq<seq<u32>>)
    ensures ReshapeWords(x) == Some(rows) <==> AreRows(x, rows)
  {
    if ReshapeWords(x) == Some(rows) {
      var heads := Unweaves(x, rows);
    }
    if AreRows(x, rows) {
      var heads :| Weaves(x, heads, rows);
      WeaveReads(x, heads, rows);
    }
  }

  /** The numpy reader returns rows exactly if the whole words of the file are those rows, each behind
      a word that is dropped. */
  lemma ReshapeMeans(data: seq<byte>, rows: seq<seq<u32>>)
    ensures Reshape(data) == Some(rows) <==> AreRows(Words(data), rows)
  {
    RowsIff(Words(data), rows);
  }
}
