/** The two encodings of the adapter in vectordbbench/rostam/rostam.py: the binary bulk wire RVB1
    and query wire RVQ1, each against the JSON body it replaces. Vector components are opaque
    32-bit words. */
module RvWire {
  import opened Bytes
  import opened Json

  /** One point as the server sees it, whichever wire carried it. */
  datatype Point = Point(id: u64, vec: seq<u32>, payload: Option<Json>)

  datatype Bulk = Bulk(upsert: bool, points: seq<Point>)

  const BULK_MAGIC: seq<byte> := [82, 86, 66, 49]
  const QUERY_MAGIC: seq<byte> := [82, 86, 81, 49]

  // ---------- words, rows and payloads ----------

  function Words(vec: seq<u32>): (s: seq<byte>)
    ensures |s| == 4 * |vec|
  {
    if vec == [] then [] else PutU32(vec[0]) + Words(vec[1..])
  }

  function ReadWords(s: seq<byte>, n: nat): Option<(seq<u32>, seq<byte>)>
    decreases n
  {
    if n == 0 then Some(([], s))
    else if |s| < 4 then None
    else
      match ReadWords(s[4..], n - 1)
      case None => None
      case Some((ws, rest)) => Some(([GetU32(s[..4])] + ws, rest))
  }

  lemma {:induction false} WordsReadBack(vec: seq<u32>, tail: seq<byte>)
    ensures ReadWords(Words(vec) + tail, |vec|) == Some((vec, tail))
  {
    if vec == [] {
      assert Words(vec) + tail == tail;
    } else {
      var s := Words(vec) + tail;
      assert s[..4] == PutU32(vec[0]) && s[4..] == Words(vec[1..]) + tail;
      U32ReadsBack(vec[0]);
      WordsReadBack(vec[1..], tail);
      assert [vec[0]] + vec[1..] == vec;
    }
  }

  /** count x [ id u64 ][ dim x f32 ] */
  function RowBytes(ids: seq<u64>, rows: seq<seq<u32>>): seq<byte>
    requires |ids| == |rows|
  {
    if ids == [] then [] else PutU64(ids[0]) + (Words(rows[0]) + RowBytes(ids[1..], rows[1..]))
  }

  function ReadRows(s: seq<byte>, n: nat, dim: nat): Option<(seq<u64>, seq<seq<u32>>, seq<byte>)>
    decreases n
  {
    if n == 0 then Some(([], [], s))
    else if |s| < 8 then None
    else
      match ReadWords(s[8..], dim)
      case None => None
      case Some((vec, t)) =>
        match ReadRows(t, n - 1, dim)
        case None => None
        case Some((ids, rows, rest)) => Some(([GetU64(s[..8])] + ids, [vec] + rows, rest))
  }

  /** One step of the row reader. */
  lemma ReadsRow(s: seq<byte>, n: nat, dim: nat, id: u64, vec: seq<u32>, t: seq<byte>,
                 ids: seq<u64>, rows: seq<seq<u32>>, rest: seq<byte>)
    requires n > 0 && |s| >= 8 && GetU64(s[..8]) == id && ReadWords(s[8..], dim) == Some((vec, t))
    requires ReadRows(t, n - 1, dim) == Some((ids, rows, rest))
    ensures ReadRows(s, n, dim) == Some(([id] + ids, [vec] + rows, rest))
  {
  }

  lemma RowFirst(id: u64, vec: seq<u32>, more: seq<byte>, tail: seq<byte>)
    ensures var s := PutU64(id) + (Words(vec) + more) + tail;
            |s| >= 8 && GetU64(s[..8]) == id && s[8..] == Words(vec) + (more + tail)
  {
    var s := PutU64(id) + (Words(vec) + more) + tail;
    assert s[..8] == PutU64(id);
    U64ReadsBack(id);
  }

  lemma {:induction false} RowsReadBack(ids: seq<u64>, rows: seq<seq<u32>>, dim: nat, tail: seq<byte>)
    requires |ids| == |rows| && forall i :: 0 <= i < |rows| ==> |rows[i]| == dim
    ensures ReadRows(RowBytes(ids, rows) + tail, |ids|, dim) == Some((ids, rows, tail))
  {
    if ids == [] {
      assert RowBytes(ids, rows) + tail == tail;
    } else {
      var rest := RowBytes(ids[1..], rows[1..]);
      RowFirst(ids[0], rows[0], rest, tail);
      WordsReadBack(rows[0], rest + tail);
      RowsReadBack(ids[1..], rows[1..], dim, tail);
      ReadsRow(RowBytes(ids, rows) + tail, |ids|, dim, ids[0], rows[0], rest + tail, ids[1..], rows[1..], tail);
      assert [ids[0]] + ids[1..] == ids && [rows[0]] + rows[1..] == rows;
    }
  }

  /** The payload of point i: {"id":{"kind":"int","int":i}}. */
  const ID: Text := [105, 100]
  const KIND: Text := [107, 105, 110, 100]
  const INT: Text := [105, 110, 116]

  function IntField(n: int): Json {
    Obj(Member(KIND, Str(INT), Member(INT, Num(n), Nil)))
  }

  function PayloadOf(i: u64): Json {
    Obj(Member(ID, IntField(i), Nil))
  }

  /** The format string of _binary_body, up to the %d. */
  const BEFORE_ID: seq<byte> :=
    [123, 34, 105, 100, 34, 58, 123, 34, 107, 105, 110, 100, 34, 58, 34, 105, 110, 116, 34, 44,
     34, 105, 110, 116, 34, 58]

  function PayloadBlob(i: u64): seq<byte> {
    BEFORE_ID + (Digits(i) + [125, 125])
  }

  lemma PlainTexts()
    ensures Quoted(ID) == [34, 105, 100, 34]
    ensures Quoted(KIND) == [34, 107, 105, 110, 100, 34]
    ensures Quoted(INT) == [34, 105, 110, 116, 34]
  {
    assert Escaped(ID) == Escape(105) + (Escape(100) + Escaped([]));
    assert Escaped(INT) == Escape(105) + Escaped([110, 116]);
    assert Escaped([110, 116]) == Escape(110) + (Escape(116) + Escaped([]));
    assert Escaped(KIND) == Escape(107) + Escaped([105, 110, 100]);
    assert Escaped([105, 110, 100]) == Escape(105) + Escaped([110, 100]);
    assert Escaped([110, 100]) == Escape(110) + (Escape(100) + Escaped([]));
  }

  lemma PrintsLast(st: Style, k: Text, v: Json)
    ensures PrintMembers(st, Member(k, v, Nil)) == Quoted(k) + (st.colon + Print(st, v))
  {
    assert Print(st, v) + [] == Print(st, v);
  }

  lemma PrintsIntField(n: nat)
    ensures Print(COMPACT, IntField(n)) ==
              [123] + ((Quoted(KIND) + ([58] + (Quoted(INT) + ([44] + (Quoted(INT) + ([58] + Digits(n))))))) + [125])
  {
    var last := Member(INT, Num(n), Nil);
    PrintsLast(COMPACT, INT, Num(n));
    assert PrintMembers(COMPACT, last) == Quoted(INT) + ([58] + Digits(n));
    var ms := Member(KIND, Str(INT), last);
    assert PrintMembers(COMPACT, ms)
        == Quoted(KIND) + ([58] + (Quoted(INT) + ([44] + PrintMembers(COMPACT, last))));
    assert Print(COMPACT, IntField(n)) == [123] + (PrintMembers(COMPACT, ms) + [125]);
  }

  lemma PrintsPayload(i: u64)
    ensures Print(COMPACT, PayloadOf(i)) ==
              [123] + ((Quoted(ID) + ([58] + Print(COMPACT, IntField(i)))) + [125])
  {
    PrintsLast(COMPACT, ID, IntField(i));
  }

  lemma InnerLiteral(d: seq<byte>)
    ensures [123] + (([34, 107, 105, 110, 100, 34] + ([58] + ([34, 105, 110, 116, 34] + ([44] +
              ([34, 105, 110, 116, 34] + ([58] + d)))))) + [125])
         == [123, 34, 107, 105, 110, 100, 34, 58, 34, 105, 110, 116, 34, 44, 34, 105, 110, 116, 34, 58] + (d + [125])
  {
  }

  lemma OuterLiteral(d: seq<byte>)
    ensures [123] + (([34, 105, 100, 34] + ([58] +
              ([123, 34, 107, 105, 110, 100, 34, 58, 34, 105, 110, 116, 34, 44, 34, 105, 110, 116, 34, 58]
               + (d + [125])))) + [125])
         == BEFORE_ID + (d + [125, 125])
  {
  }

  /** The formatted text is the payload object, printed compactly. */
  lemma BlobIsPayload(i: u64)
    ensures PayloadBlob(i) == Print(COMPACT, PayloadOf(i))
  {
    PlainTexts();
    PrintsIntField(i);
    InnerLiteral(Digits(i));
    PrintsPayload(i);
    OuterLiteral(Digits(i));
  }

  lemma BlobReadsBack(i: u64)
    ensures Parse(PayloadBlob(i)) == Some(PayloadOf(i))
  {
    BlobIsPayload(i);
    PrintReadsBack(COMPACT, PayloadOf(i));
  }

  lemma {:induction false} DigitsShort(n: nat, k: nat)
    requires n < Pow10(k) && k > 0
    ensures |Digits(n)| <= k
  {
    if n >= 10 {
      DigitsShort(n / 10, k - 1);
    }
  }

  function Pow10(k: nat): (p: nat)
    ensures p >= 1
  {
    if k == 0 then 1 else 10 * Pow10(k - 1)
  }

  lemma BlobShort(i: u64)
    ensures |PayloadBlob(i)| <= 48
  {
    assert Pow10(4) == 1_0000;
    assert Pow10(8) == 1_0000_0000;
    assert Pow10(12) == 1_0000_0000_0000;
    assert Pow10(16) == 1_0000_0000_0000_0000;
    assert Pow10(20) == 1_0000_0000_0000_0000_0000;
    DigitsShort(i, 20);
  }

  /** count x [ len u32 ][ len bytes ] */
  function Framed(blobs: seq<seq<byte>>): seq<byte>
    requires forall i :: 0 <= i < |blobs| ==> |blobs[i]| < TWO_32
  {
    if blobs == [] then [] else PutU32(|blobs[0]|) + (blobs[0] + Framed(blobs[1..]))
  }

  function ReadFramed(s: seq<byte>, n: nat): Option<(seq<seq<byte>>, seq<byte>)>
    decreases n
  {
    if n == 0 then Some(([], s))
    else if |s| < 4 || |s| < 4 + GetU32(s[..4]) then None
    else
      var len := GetU32(s[..4]);
      match ReadFramed(s[4 + len..], n - 1)
      case None => None
      case Some((blobs, rest)) => Some(([s[4..4 + len]] + blobs, rest))
  }

  /** A length-prefixed blob, taken apart. */
  lemma Prefixed(blob: seq<byte>, more: seq<byte>)
    requires |blob| < TWO_32
    ensures var s := PutU32(|blob|) + (blob + more);
            && |s| >= 4 && GetU32(s[..4]) == |blob| && |s| >= 4 + |blob|
            && s[4..4 + |blob|] == blob && s[4 + |blob|..] == more
  {
    var s := PutU32(|blob|) + (blob + more);
    assert s[..4] == PutU32(|blob|);
    U32ReadsBack(|blob|);
  }

  lemma {:induction false} FramedReadsBack(blobs: seq<seq<byte>>, tail: seq<byte>)
    requires forall i :: 0 <= i < |blobs| ==> |blobs[i]| < TWO_32
    ensures ReadFramed(Framed(blobs) + tail, |blobs|) == Some((blobs, tail))
  {
    if blobs == [] {
      assert Framed(blobs) + tail == tail;
    } else {
      var more := Framed(blobs[1..]) + tail;
      assert Framed(blobs) + tail == PutU32(|blobs[0]|) + (blobs[0] + more);
      Prefixed(blobs[0], more);
      FramedReadsBack(blobs[1..], tail);
      assert [blobs[0]] + blobs[1..] == blobs;
    }
  }

  function Blobs(ids: seq<u64>): (blobs: seq<seq<byte>>)
    ensures |blobs| == |ids|
    ensures forall i :: 0 <= i < |ids| ==> blobs[i] == PayloadBlob(ids[i]) && |blobs[i]| <= 48
  {
    if ids == [] then []
    else
      BlobShort(ids[0]);
      [PayloadBlob(ids[0])] + Blobs(ids[1..])
  }

  function PayloadBytes(ids: seq<u64>): seq<byte> {
    Framed(Blobs(ids))
  }

  function ParseAll(blobs: seq<seq<byte>>): Option<seq<Json>> {
    if blobs == [] then Some([])
    else
      match (Parse(blobs[0]), ParseAll(blobs[1..]))
      case (Some(j), Some(js)) => Some([j] + js)
      case _ => None
  }

  function PayloadsOf(ids: seq<u64>): (js: seq<Json>)
    ensures |js| == |ids| && forall i :: 0 <= i < |ids| ==> js[i] == PayloadOf(ids[i])
  {
    if ids == [] then [] else [PayloadOf(ids[0])] + PayloadsOf(ids[1..])
  }

  lemma {:induction false} BlobsParse(ids: seq<u64>)
    ensures ParseAll(Blobs(ids)) == Some(PayloadsOf(ids))
  {
    if ids != [] {
      BlobReadsBack(ids[0]);
      BlobsParse(ids[1..]);
      assert Blobs(ids)[1..] == Blobs(ids[1..]);
    }
  }

  // ---------- RVB1 ----------

  function BulkFlags(upsert: bool, payloads: bool): u32 {
    (if payloads then 1 else 0) + (if upsert then 2 else 0)
  }

  function BulkHeader(flags: u32, count: u32, dim: u32): (s: seq<byte>)
    ensures |s| == 16
  {
    BULK_MAGIC + (PutU32(flags) + (PutU32(count) + PutU32(dim)))
  }

  /** A chunk the adapter may encode: numpy gives every row the same length. */
  predicate IsChunk(ids: seq<u64>, rows: seq<seq<u32>>, dim: nat) {
    && |ids| == |rows| < TWO_32 && dim < TWO_32
    && forall i :: 0 <= i < |rows| ==> |rows[i]| == dim
  }

  function BinaryBody(ids: seq<u64>, rows: seq<seq<u32>>, dim: nat, upsert: bool, payloads: bool): seq<byte>
    requires IsChunk(ids, rows, dim)
  {
    BulkHeader(BulkFlags(upsert, payloads), |ids|, dim)
    + (RowBytes(ids, rows) + (if payloads then PayloadBytes(ids) else []))
  }

  function Points(ids: seq<u64>, rows: seq<seq<u32>>, payloads: Option<seq<Json>>): (ps: seq<Point>)
    requires |ids| == |rows| && (payloads.Some? ==> |payloads.value| == |ids|)
    ensures |ps| == |ids|
  {
    seq(|ids|, i requires 0 <= i < |ids| =>
      Point(ids[i], rows[i], if payloads.Some? then Some(payloads.value[i]) else None))
  }

  /** A server's reading of RVB1, from the layout alone. */
  function DecodeBulk(body: seq<byte>): Option<Bulk> {
    if |body| < 16 || body[..4] != BULK_MAGIC then None
    else
      var flags, count, dim := GetU32(body[4..8]), GetU32(body[8..12]), GetU32(body[12..16]);
      if flags > 3 then None
      else
        match ReadRows(body[16..], count, dim)
        case None => None
        case Some((ids, rows, rest)) => FinishBulk(flags, ids, rows, rest)
  }

  function FinishBulk(flags: u32, ids: seq<u64>, rows: seq<seq<u32>>, rest: seq<byte>): Option<Bulk> {
    if |ids| != |rows| then None
    else if flags % 2 == 0 then
      if rest == [] then Some(Bulk(flags >= 2, Points(ids, rows, None))) else None
    else
      match ReadFramed(rest, |ids|)
      case None => None
      case Some((blobs, end)) =>
        match ParseAll(blobs)
        case None => None
        case Some(js) =>
          if end == [] && |js| == |ids| then Some(Bulk(flags >= 2, Points(ids, rows, Some(js)))) else None
  }

  lemma HeaderReadsBack(flags: u32, count: u32, dim: u32, tail: seq<byte>)
    ensures var s := BulkHeader(flags, count, dim) + tail;
            && s[..4] == [82, 86, 66, 49] && s[16..] == tail
            && GetU32(s[4..8]) == flags && GetU32(s[8..12]) == count && GetU32(s[12..16]) == dim
  {
    var s := BulkHeader(flags, count, dim) + tail;
    assert s[4..8] == PutU32(flags) && s[8..12] == PutU32(count) && s[12..16] == PutU32(dim);
    U32ReadsBack(flags);
    U32ReadsBack(count);
    U32ReadsBack(dim);
  }

  /** The last step of the bulk reader, with payloads and without. */
  lemma FinishPayloads(flags: u32, ids: seq<u64>, rows: seq<seq<u32>>, rest: seq<byte>,
                       blobs: seq<seq<byte>>, js: seq<Json>)
    requires |ids| == |rows| && (flags == 1 || flags == 3)
    requires ReadFramed(rest, |ids|) == Some((blobs, [])) && ParseAll(blobs) == Some(js) && |js| == |ids|
    ensures FinishBulk(flags, ids, rows, rest) == Some(Bulk(flags == 3, Points(ids, rows, Some(js))))
  {
  }

  lemma FinishPlain(flags: u32, ids: seq<u64>, rows: seq<seq<u32>>)
    requires |ids| == |rows| && (flags == 0 || flags == 2)
    ensures FinishBulk(flags, ids, rows, []) == Some(Bulk(flags == 2, Points(ids, rows, None)))
  {
  }

  lemma FramedWhole(blobs: seq<seq<byte>>)
    requires forall i :: 0 <= i < |blobs| ==> |blobs[i]| < TWO_32
    ensures ReadFramed(Framed(blobs), |blobs|) == Some((blobs, []))
  {
    FramedReadsBack(blobs, []);
    assert Framed(blobs) + [] == Framed(blobs);
  }

  lemma PayloadsReadBack(ids: seq<u64>)
    ensures ReadFramed(PayloadBytes(ids), |ids|) == Some((Blobs(ids), []))
    ensures ParseAll(Blobs(ids)) == Some(PayloadsOf(ids))
  {
    FramedWhole(Blobs(ids));
    BlobsParse(ids);
  }

  lemma FinishReadsBack(ids: seq<u64>, rows: seq<seq<u32>>, upsert: bool, payloads: bool)
    requires |ids| == |rows|
    ensures FinishBulk(BulkFlags(upsert, payloads), ids, rows, if payloads then PayloadBytes(ids) else []) ==
              Some(Bulk(upsert, Points(ids, rows, if payloads then Some(PayloadsOf(ids)) else None)))
  {
    var flags := BulkFlags(upsert, payloads);
    if payloads {
      PayloadsReadBack(ids);
      FinishPayloads(flags, ids, rows, PayloadBytes(ids), Blobs(ids), PayloadsOf(ids));
    } else {
      FinishPlain(flags, ids, rows);
    }
  }

  /** The layout of RVB1: magic, one flag bit for payloads and one for upserts, count and dim, and then
      the rows. */
  lemma BulkLayout(ids: seq<u64>, rows: seq<seq<u32>>, dim: nat, upsert: bool, payloads: bool)
    requires IsChunk(ids, rows, dim)
    ensures var body := BinaryBody(ids, rows, dim, upsert, payloads);
            && |body| >= 16 && body[..4] == [82, 86, 66, 49]
            && GetU32(body[4..8]) == (if payloads then 1 else 0) + (if upsert then 2 else 0)
            && GetU32(body[8..12]) == |ids| && GetU32(body[12..16]) == dim
            && body[16..] == RowBytes(ids, rows) + if payloads then PayloadBytes(ids) else []
  {
    HeaderReadsBack(BulkFlags(upsert, payloads), |ids|, dim,
                    RowBytes(ids, rows) + if payloads then PayloadBytes(ids) else []);
  }

  /** One step of the bulk reader. */
  lemma ReadsBulk(body: seq<byte>, flags: u32, count: u32, dim: u32, rest: seq<byte>,
                  ids: seq<u64>, rows: seq<seq<u32>>, end: seq<byte>)
    requires |body| >= 16 && body[..4] == BULK_MAGIC && flags <= 3 && body[16..] == rest
    requires GetU32(body[4..8]) == flags && GetU32(body[8..12]) == count && GetU32(body[12..16]) == dim
    requires ReadRows(rest, count, dim) == Some((ids, rows, end))
    ensures DecodeBulk(body) == FinishBulk(flags, ids, rows, end)
  {
  }

  /** Encoding and decoding is the identity on the ids, rows, payloads and flags, for every
      combination of flags. */
  lemma BulkReadsBack(ids: seq<u64>, rows: seq<seq<u32>>, dim: nat, upsert: bool, payloads: bool)
    requires IsChunk(ids, rows, dim)
    ensures DecodeBulk(BinaryBody(ids, rows, dim, upsert, payloads)) ==
              Some(Bulk(upsert, Points(ids, rows, if payloads then Some(PayloadsOf(ids)) else None)))
  {
    var tail := if payloads then PayloadBytes(ids) else [];
    var flags := BulkFlags(upsert, payloads);
    HeaderReadsBack(flags, |ids|, dim, RowBytes(ids, rows) + tail);
    RowsReadBack(ids, rows, dim, tail);
    ReadsBulk(BinaryBody(ids, rows, dim, upsert, payloads), flags, |ids|, dim, RowBytes(ids, rows) + tail,
              ids, rows, tail);
    FinishReadsBack(ids, rows, upsert, payloads);
  }

  lemma {:induction false} RowBytesLength(ids: seq<u64>, rows: seq<seq<u32>>, dim: nat)
    requires |ids| == |rows| && forall i :: 0 <= i < |rows| ==> |rows[i]| == dim
    ensures |RowBytes(ids, rows)| == |ids| * (8 + 4 * dim)
  {
    if ids != [] {
      RowBytesLength(ids[1..], rows[1..], dim);
    }
  }

  /** The body is 16 bytes, 8 + 4*dim per point, and the payload region. */
  lemma BulkLength(ids: seq<u64>, rows: seq<seq<u32>>, dim: nat, upsert: bool, payloads: bool)
    requires IsChunk(ids, rows, dim)
    ensures |BinaryBody(ids, rows, dim, upsert, payloads)| ==
              16 + |ids| * (8 + 4 * dim) + (if payloads then |PayloadBytes(ids)| else 0)
  {
    RowBytesLength(ids, rows, dim);
  }

  // ---------- the JSON body of the same chunk ----------

  /** The dict that _json_body builds; "upsert" is set only where the route takes it. */
  datatype JsonPoint = JsonPoint(id: u64, vector: seq<u32>, metadata: Option<Json>)

  datatype JsonBody = JsonBody(points: seq<JsonPoint>, upsert: bool)

  function JsonBulk(ids: seq<u64>, rows: seq<seq<u32>>, payloads: bool, upsert: bool): JsonBody
    requires |ids| == |rows|
  {
    JsonBody(seq(|ids|, i requires 0 <= i < |ids| =>
               JsonPoint(ids[i], rows[i], if payloads then Some(PayloadOf(ids[i])) else None)),
             upsert)
  }

  function JsonMeaning(b: JsonBody): Bulk {
    Bulk(b.upsert, seq(|b.points|, i requires 0 <= i < |b.points| =>
      Point(b.points[i].id, b.points[i].vector, b.points[i].metadata)))
  }

  /** Whichever wire carries a chunk, the server sees the same points and the same payloads. */
  lemma WiresAgree(ids: seq<u64>, rows: seq<seq<u32>>, dim: nat, upsert: bool, payloads: bool)
    requires IsChunk(ids, rows, dim)
    ensures DecodeBulk(BinaryBody(ids, rows, dim, upsert, payloads)) ==
              Some(JsonMeaning(JsonBulk(ids, rows, payloads, upsert)))
  {
    BulkReadsBack(ids, rows, dim, upsert, payloads);
    var js := if payloads then Some(PayloadsOf(ids)) else None;
    assert Points(ids, rows, js) == JsonMeaning(JsonBulk(ids, rows, payloads, upsert)).points;
  }

  // ---------- _binary_body in its own form ----------

  lemma FirstPayload(ids: seq<u64>, i: nat)
    requires i < |ids| && |PayloadBlob(ids[i])| < TWO_32
    ensures PayloadBytes(ids[i..]) ==
              PutU32(|PayloadBlob(ids[i])|) + (PayloadBlob(ids[i]) + PayloadBytes(ids[i + 1..]))
  {
    assert ids[i..][0] == ids[i] && ids[i..][1..] == ids[i + 1..];
    assert Blobs(ids[i..])[1..] == Blobs(ids[i + 1..]);
  }

  lemma Regroup(a: seq<byte>, b: seq<byte>, c: seq<byte>, d: seq<byte>)
    ensures a + (b + (c + d)) == a + b + c + d
  {
  }

  /** The body once the payloads from i on have been appended. */
  ghost function Finished(body: seq<byte>, ids: seq<u64>, i: nat): seq<byte>
    requires i <= |ids|
  {
    body + PayloadBytes(ids[i..])
  }

  function Appended(body: seq<byte>, blob: seq<byte>): seq<byte>
    requires |blob| < TWO_32
  {
    body + PutU32(|blob|) + blob
  }

  lemma NextPayload(body: seq<byte>, ids: seq<u64>, i: nat)
    requires i < |ids| && |PayloadBlob(ids[i])| < TWO_32
    ensures Finished(body, ids, i) == Finished(Appended(body, PayloadBlob(ids[i])), ids, i + 1)
  {
    var blob := PayloadBlob(ids[i]);
    FirstPayload(ids, i);
    Regroup(body, PutU32(|blob|), blob, PayloadBytes(ids[i + 1..]));
  }

  lemma AllPayloads(body: seq<byte>, ids: seq<u64>)
    ensures Finished(body, ids, 0) == body + PayloadBytes(ids)
    ensures Finished(body, ids, |ids|) == body
  {
    assert ids[0..] == ids && ids[|ids|..] == [];
    assert body + PayloadBytes([]) == body;
  }

  lemma BodyWhole(ids: seq<u64>, rows: seq<seq<u32>>, dim: nat, upsert: bool, payloads: bool)
    requires IsChunk(ids, rows, dim)
    ensures BinaryBody(ids, rows, dim, upsert, payloads) ==
              BulkHeader(BulkFlags(upsert, payloads), |ids|, dim) + RowBytes(ids, rows)
              + (if payloads then PayloadBytes(ids) else [])
  {
  }

  /** The rows go out in one piece, the payloads one by one. */
  method BuildBinaryBody(ids: seq<u64>, rows: seq<seq<u32>>, dim: nat, upsert: bool, payloads: bool)
    returns (body: seq<byte>)
    requires IsChunk(ids, rows, dim)
    ensures body == BinaryBody(ids, rows, dim, upsert, payloads)
  {
    BodyWhole(ids, rows, dim, upsert, payloads);
    var flags := 0;
    if payloads {
      flags := flags + 1;
    }
    if upsert {
      flags := flags + 2;
    }
    body := BulkHeader(flags, |ids|, dim) + RowBytes(ids, rows);
    if payloads {
      AllPayloads(body, ids);
      ghost var whole := Finished(body, ids, 0);
      for i := 0 to |ids|
        invariant Finished(body, ids, i) == whole
      {
        var blob := PayloadBlob(ids[i]);
        BlobShort(ids[i]);
        NextPayload(body, ids, i);
        body := Appended(body, blob);
      }
      AllPayloads(body, ids);
    }
  }

  // ---------- RVQ1 ----------

  /** What a search asks for, whichever wire carried it. */
  datatype Query = Query(query: seq<u32>, k: int, filter: Option<Json>)

  function QueryHeader(flags: u32, k: u32, dim: u32): (s: seq<byte>)
    ensures |s| == 28
  {
    QUERY_MAGIC + (PutU32(flags) + (PutU32(k) + (PutU32(dim) + [0, 0, 0, 0, 0, 0, 0, 0, 0, 0, 0, 0])))
  }

  function QueryBody(query: seq<u32>, k: u32, blob: seq<byte>): seq<byte>
    requires |query| < TWO_32 && |blob| < TWO_32
  {
    QueryHeader(if blob != [] then 1 else 0, k, |query|)
    + (Words(query) + (if blob != [] then PutU32(|blob|) + blob else []))
  }

  /** A server's reading of RVQ1. The consistency bytes must ask for nothing out of the ordinary. */
  function DecodeQuery(body: seq<byte>): Option<Query> {
    if |body| < 28 || body[..4] != QUERY_MAGIC || body[16..28] != [0, 0, 0, 0, 0, 0, 0, 0, 0, 0, 0, 0] then None
    else
      var flags, k, dim := GetU32(body[4..8]), GetU32(body[8..12]), GetU32(body[12..16]);
      match ReadWords(body[28..], dim)
      case None => None
      case Some((q, rest)) =>
        if flags == 0 then
          if rest == [] then Some(Query(q, k, None)) else None
        else if flags != 1 || |rest| < 4 || |rest| != 4 + GetU32(rest[..4]) then None
        else
          match Parse(rest[4..])
          case None => None
          case Some(f) => Some(Query(q, k, Some(f)))
  }

  /** The encoded copy of a filter that prepare_filter keeps: empty when there is none. */
  function BlobOf(filter: Option<Json>): (blob: seq<byte>)
    ensures blob == [] <==> filter.None?
  {
    match filter
    case None => []
    case Some(f) =>
      ValueReadsBack(DEFAULT, f, []);
      Print(DEFAULT, f)
  }

  lemma QueryHeaderReadsBack(flags: u32, k: u32, dim: u32, tail: seq<byte>)
    ensures var s := QueryHeader(flags, k, dim) + tail;
            && s[..4] == [82, 86, 81, 49] && s[28..] == tail
            && s[16..28] == [0, 0, 0, 0, 0, 0, 0, 0, 0, 0, 0, 0]
            && GetU32(s[4..8]) == flags && GetU32(s[8..12]) == k && GetU32(s[12..16]) == dim
  {
    var s := QueryHeader(flags, k, dim) + tail;
    assert s[4..8] == PutU32(flags) && s[8..12] == PutU32(k) && s[12..16] == PutU32(dim);
    U32ReadsBack(flags);
    U32ReadsBack(k);
    U32ReadsBack(dim);
  }

  /** The layout of RVQ1: magic, the flag for a filter, k and dim, twelve zero bytes, the query, and
      the filter with its length. */
  lemma QueryLayout(query: seq<u32>, k: u32, blob: seq<byte>)
    requires |query| < TWO_32 && |blob| < TWO_32
    ensures var body := QueryBody(query, k, blob);
            && |body| == 28 + 4 * |query| + (if blob != [] then 4 + |blob| else 0)
            && body[..4] == [82, 86, 81, 49] && GetU32(body[4..8]) == (if blob != [] then 1 else 0)
            && GetU32(body[8..12]) == k && GetU32(body[12..16]) == |query|
            && body[16..28] == [0, 0, 0, 0, 0, 0, 0, 0, 0, 0, 0, 0]
            && body[28..] == Words(query) + (if blob != [] then PutU32(|blob|) + blob else [])
  {
    var tail := Words(query) + (if blob != [] then PutU32(|blob|) + blob else []);
    QueryHeaderReadsBack(if blob != [] then 1 else 0, k, |query|, tail);
  }

  /** A binary search request decodes to the query, k and filter it was built from. */
  lemma QueryReadsBack(query: seq<u32>, k: u32, filter: Option<Json>)
    requires |query| < TWO_32 && |BlobOf(filter)| < TWO_32
    ensures DecodeQuery(QueryBody(query, k, BlobOf(filter))) == Some(Query(query, k, filter))
  {
    var blob := BlobOf(filter);
    var rest := if blob != [] then PutU32(|blob|) + blob else [];
    QueryHeaderReadsBack(if blob != [] then 1 else 0, k, |query|, Words(query) + rest);
    WordsReadBack(query, rest);
    if filter.Some? {
      assert rest[..4] == PutU32(|blob|) && rest[4..] == blob;
      U32ReadsBack(|blob|);
      PrintReadsBack(DEFAULT, filter.value);
    }
  }
}
