/** The stream client of sift1m/rostam_py_client.py: requests with nested lengths, responses cut
    out of a byte stream that the socket may split anywhere, and the id lists inside them. */
module Framing {
  import opened Bytes
  import RvWire
  import PipelineModel
  import PipelineTheorems

  // ---------- cursors ----------

  /** The first n bytes of s and the rest. */
  function Cut(s: seq<byte>, n: nat): Option<(seq<byte>, seq<byte>)> {
    if |s| < n then None else Some((s[..n], s[n..]))
  }

  lemma CutReads(a: seq<byte>, b: seq<byte>)
    ensures Cut(a + b, |a|) == Some((a, b))
  {
  }

  function CutU32(s: seq<byte>): Option<(u32, seq<byte>)> {
    if |s| < 4 then None else Some((GetU32(s[..4]), s[4..]))
  }

  lemma CutU32Reads(v: u32, s: seq<byte>)
    ensures CutU32(PutU32(v) + s) == Some((v, s))
  {
    CutReads(PutU32(v), s);
    U32ReadsBack(v);
  }

  /** [ len u32 ][ len bytes ] */
  function Frame(body: seq<byte>): (s: seq<byte>)
    requires |body| < TWO_32
    ensures |s| == 4 + |body|
  {
    PutU32(|body|) + body
  }

  function CutFrame(s: seq<byte>): Option<(seq<byte>, seq<byte>)> {
    match CutU32(s)
    case None => None
    case Some((n, rest)) => Cut(rest, n)
  }

  lemma CutFrameReads(body: seq<byte>, s: seq<byte>)
    requires |body| < TWO_32
    ensures CutFrame(Frame(body) + s) == Some((body, s))
  {
    assert Frame(body) + s == PutU32(|body|) + (body + s);
    CutU32Reads(|body|, body + s);
    CutReads(body, s);
  }

  // ---------- requests ----------

  /** "vector_search" and "sift". */
  const OP: seq<byte> := [118, 101, 99, 116, 111, 114, 95, 115, 101, 97, 114, 99, 104]
  const COLL: seq<byte> := [115, 105, 102, 116]

  /** [ len u8 ][ len bytes ] */
  function Named(name: seq<byte>): (s: seq<byte>)
    requires |name| < 256
    ensures |s| == 1 + |name|
  {
    [|name| as int] + name
  }

  function CutName(s: seq<byte>): Option<(seq<byte>, seq<byte>)> {
    if s == [] then None else Cut(s[1..], s[0])
  }

  lemma CutNameReads(name: seq<byte>, s: seq<byte>)
    requires |name| < 256
    ensures CutName(Named(name) + s) == Some((name, s))
  {
    assert (Named(name) + s)[1..] == name + s;
    CutReads(name, s);
  }

  /** encode_search's args, body and frame. */
  function SearchArgs(query: seq<u32>, k: u32): (s: seq<byte>)
    requires |query| < TWO_32
    ensures |s| == 14 + 4 * |query|
  {
    [0] + (Named(COLL) + (PutU32(k) + (PutU32(|query|) + RvWire.Words(query))))
  }

  /** struct.pack refuses an args block of 2^32 bytes or more. */
  predicate Encodable(query: seq<u32>) {
    32 + 4 * |query| < TWO_32
  }

  function EncodeSearch(query: seq<u32>, k: u32): seq<byte>
    requires Encodable(query)
  {
    Frame(Named(OP) + Frame(SearchArgs(query, k)))
  }

  datatype Request = Request(op: seq<byte>, coll: seq<byte>, k: u32, query: seq<u32>)

  function DecodeArgs(op: seq<byte>, args: seq<byte>): Option<Request> {
    if args == [] || args[0] != 0 then None
    else
      match CutName(args[1..])
      case None => None
      case Some((coll, a)) => DecodeQuery(op, coll, a)
  }

  function DecodeQuery(op: seq<byte>, coll: seq<byte>, a: seq<byte>): Option<Request> {
    match CutU32(a)
    case None => None
    case Some((k, b)) =>
      match CutU32(b)
      case None => None
      case Some((dim, c)) =>
        match RvWire.ReadWords(c, dim)
        case None => None
        case Some((query, rest)) => if rest == [] then Some(Request(op, coll, k, query)) else None
  }

  /** A server's reading of a request, in which every length must account for exactly the bytes it
      covers. */
  function DecodeRequest(s: seq<byte>): Option<Request> {
    match CutFrame(s)
    case None => None
    case Some((body, rest)) =>
      if rest != [] then None
      else
        match CutName(body)
        case None => None
        case Some((op, framed)) =>
          match CutFrame(framed)
          case None => None
          case Some((args, extra)) => if extra == [] then DecodeArgs(op, args) else None
  }

  lemma WholeFrame(body: seq<byte>)
    requires |body| < TWO_32
    ensures CutFrame(Frame(body)) == Some((body, []))
  {
    CutFrameReads(body, []);
    assert Frame(body) + [] == Frame(body);
  }

  lemma ArgsReadBack(op: seq<byte>, query: seq<u32>, k: u32)
    requires |query| < TWO_32
    ensures DecodeArgs(op, SearchArgs(query, k)) == Some(Request(op, COLL, k, query))
  {
    var words := RvWire.Words(query);
    var b := PutU32(|query|) + words;
    var a := PutU32(k) + b;
    assert SearchArgs(query, k)[1..] == Named(COLL) + a;
    CutNameReads(COLL, a);
    CutU32Reads(k, b);
    CutU32Reads(|query|, words);
    RvWire.WordsReadBack(query, []);
    assert words + [] == words;
  }

  /** A request decodes to "vector_search" on "sift" with the query and k it was built from, all
      nested lengths consistent. */
  lemma SearchReadsBack(query: seq<u32>, k: u32)
    requires Encodable(query)
    ensures DecodeRequest(EncodeSearch(query, k)) ==
              Some(Request([118, 101, 99, 116, 111, 114, 95, 115, 101, 97, 114, 99, 104], [115, 105, 102, 116], k, query))
    ensures |EncodeSearch(query, k)| == 36 + 4 * |query|
  {
    var args := SearchArgs(query, k);
    WholeFrame(Named(OP) + Frame(args));
    CutNameReads(OP, Frame(args));
    WholeFrame(args);
    ArgsReadBack(OP, query, k);
  }

  // ---------- responses ----------

  datatype Hit = Hit(id: u64, dist: u32)

  /** count x [ id u64 ][ distance bits u32 ] */
  function HitBytes(hits: seq<Hit>): (s: seq<byte>)
    ensures |s| == 12 * |hits|
  {
    if hits == [] then [] else PutU64(hits[0].id) + (PutU32(hits[0].dist) + HitBytes(hits[1..]))
  }

  function Payload(hits: seq<Hit>): (s: seq<byte>)
    requires |hits| < TWO_32
    ensures |s| == 4 + 12 * |hits|
  {
    PutU32(|hits|) + HitBytes(hits)
  }

  function Body(status: byte, payload: seq<byte>): (s: seq<byte>)
    requires |payload| < TWO_32
    ensures |s| == 5 + |payload|
  {
    [status] + PutU32(|payload|) + payload
  }

  /** A response a server can frame. */
  predicate Framable(hits: seq<Hit>) {
    9 + 12 * |hits| < TWO_32
  }

  function Response(hits: seq<Hit>): seq<byte>
    requires Framable(hits)
  {
    Frame(Body(0, Payload(hits)))
  }

  /** What search() returns or raises: ids, a status error, an index or struct error, or a closed
      connection. */
  datatype SearchResult = Ids(ids: seq<u64>) | BadStatus(status: byte) | Malformed | Closed

  /** A Python slice's start past the end is the end. */
  function Skip(s: seq<byte>, n: nat): seq<byte> {
    if n <= |s| then s[n..] else []
  }

  function Decode(body: seq<byte>): SearchResult {
    if body == [] then Malformed
    else if body[0] != 0 then BadStatus(body[0])
    else if |body| < 9 then Malformed
    else IdsOf(body[9..], GetU32(body[5..9]))
  }

  function IdsOf(s: seq<byte>, count: nat): SearchResult
    decreases count
  {
    if count == 0 then Ids([])
    else if |s| < 8 then Malformed
    else Joined([GetU64(s[..8])], IdsOf(Skip(s, 12), count - 1))
  }

  function Joined(ids: seq<u64>, rest: SearchResult): SearchResult {
    if rest.Ids? then Ids(ids + rest.ids) else rest
  }

  function IdList(hits: seq<Hit>): seq<u64> {
    if hits == [] then [] else [hits[0].id] + IdList(hits[1..])
  }

  lemma OneHit(h: Hit, more: seq<byte>)
    ensures var s := PutU64(h.id) + (PutU32(h.dist) + more);
            |s| >= 12 && GetU64(s[..8]) == h.id && Skip(s, 12) == more
  {
    var s := PutU64(h.id) + (PutU32(h.dist) + more);
    assert s[..8] == PutU64(h.id) && s[12..] == more;
    U64ReadsBack(h.id);
  }

  lemma {:induction false} HitsReadBack(hits: seq<Hit>)
    ensures IdsOf(HitBytes(hits), |hits|) == Ids(IdList(hits))
  {
    if hits != [] {
      OneHit(hits[0], HitBytes(hits[1..]));
      HitsReadBack(hits[1..]);
    }
  }

  lemma BodyDecodes(hits: seq<Hit>)
    requires Framable(hits)
    ensures Decode(Body(0, Payload(hits))) == Ids(IdList(hits))
  {
    var payload, body := Payload(hits), Body(0, Payload(hits));
    assert body[5..9] == payload[..4] == PutU32(|hits|);
    assert body[9..] == payload[4..] == HitBytes(hits);
    U32ReadsBack(|hits|);
    HitsReadBack(hits);
  }

  /** The i-th of the ids stands where the layout puts it. */
  predicate IdAt(s: seq<byte>, ids: seq<u64>, i: nat)
    requires i < |ids|
  {
    12 * i + 8 <= |s| && ids[i] == GetU64(s[12 * i..12 * i + 8])
  }

  ghost predicate AllAt(s: seq<byte>, ids: seq<u64>) {
    forall i :: 0 <= i < |ids| ==> IdAt(s, ids, i)
  }

  lemma {:induction false} IdsAt(s: seq<byte>, count: nat, ids: seq<u64>)
    ensures IdsOf(s, count) == Ids(ids) <==> |ids| == count && AllAt(s, ids)
    decreases count
  {
    if count > 0 && ids != [] {
      if |s| >= 8 {
        IdsAt(Skip(s, 12), count - 1, ids[1..]);
        SameIds(s, Skip(s, 12), ids);
        IdsHead(s, count, ids);
      } else {
        assert !IdAt(s, ids, 0);
      }
    }
  }

  lemma IdsHead(s: seq<byte>, count: nat, ids: seq<u64>)
    requires count > 0 && |s| >= 8 && ids != []
    ensures IdsOf(s, count) == Ids(ids) <==>
              ids[0] == GetU64(s[..8]) && IdsOf(Skip(s, 12), count - 1) == Ids(ids[1..])
  {
    assert ids == [ids[0]] + ids[1..];
    var rest := IdsOf(Skip(s, 12), count - 1);
    if rest.Ids? {
      assert ([GetU64(s[..8])] + rest.ids)[1..] == rest.ids;
    }
  }

  lemma SameIds(s: seq<byte>, t: seq<byte>, ids: seq<u64>)
    requires ids != [] && |s| >= 8 && t == Skip(s, 12)
    ensures AllAt(s, ids) <==> ids[0] == GetU64(s[..8]) && AllAt(t, ids[1..])
  {
    assert s[12 * 0..12 * 0 + 8] == s[..8];
    assert IdAt(s, ids, 0) <==> ids[0] == GetU64(s[..8]);
    forall i | 0 <= i < |ids| - 1 ensures IdAt(t, ids[1..], i) <==> IdAt(s, ids, i + 1) {
      if 12 * i + 20 <= |s| {
        assert t[12 * i..12 * i + 8] == s[12 * (i + 1)..12 * (i + 1) + 8];
      }
    }
    if ids[0] == GetU64(s[..8]) && AllAt(t, ids[1..]) {
      forall i | 0 <= i < |ids| ensures IdAt(s, ids, i) {
        assert i > 0 ==> IdAt(t, ids[1..], i - 1);
      }
    }
  }

  /** A response decodes to these ids exactly if its status is 0, its count is their number, and they
      stand 12 bytes apart from byte 9 on; to a status error exactly if its status is that other one. */
  lemma DecodeMeans(body: seq<byte>, ids: seq<u64>, status: byte)
    ensures Decode(body) == Ids(ids) <==>
              |body| >= 9 && body[0] == 0 && |ids| == GetU32(body[5..9]) && AllAt(body[9..], ids)
    ensures Decode(body) == BadStatus(status) <==> body != [] && body[0] == status != 0
    ensures Decode(body) != Closed
  {
    if |body| >= 9 {
      IdsAt(body[9..], GetU32(body[5..9]), ids);
      IdsIff(body[9..], GetU32(body[5..9]));
    }
  }

  /** A stream that ends inside the next frame is a closed connection; otherwise the frame is decoded,
      and nothing after it is touched. */
  lemma TakeMeans(s: seq<byte>)
    ensures Take(s).0 == Closed <==> |s| < 4 || |s| - 4 < GetU32(s[..4])
    ensures Take(s).0 != Closed ==>
              var n: nat := GetU32(s[..4]); Take(s) == (Decode(s[4..4 + n]), s[4 + n..])
  {
    if |s| >= 4 && |s| - 4 >= GetU32(s[..4]) {
      var n: nat := GetU32(s[..4]);
      assert s[4..][..n] == s[4..4 + n] && s[4..][n..] == s[4 + n..];
      DecodeMeans(s[4..4 + n], [], 0);
    }
  }

  // ---------- the same body in Go and in Python ----------

  /** Python's reading of a reply's payload. */
  function PayloadIds(p: seq<byte>): SearchResult {
    if |p| < 4 then Malformed else IdsOf(p[4..], GetU32(p[..4]))
  }

  /** The bytes of payload that Python reads: the count, and all hits but the last distance. */
  function Need(p: seq<byte>): nat {
    if |p| < 4 || GetU32(p[..4]) == 0 then 4 else 12 * GetU32(p[..4])
  }

  lemma {:induction false} IdsIff(s: seq<byte>, count: nat)
    ensures IdsOf(s, count).Ids? <==> count == 0 || |s| >= 12 * count - 4
    ensures !IdsOf(s, count).Ids? ==> IdsOf(s, count) == Malformed
    decreases count
  {
    if count > 0 && |s| >= 8 {
      IdsIff(Skip(s, 12), count - 1);
    }
  }

  lemma PayloadIff(p: seq<byte>)
    ensures PayloadIds(p).Ids? <==> |p| >= Need(p)
    ensures !PayloadIds(p).Ids? ==> PayloadIds(p) == Malformed
  {
    if |p| >= 4 {
      IdsIff(p[4..], GetU32(p[..4]));
    }
  }

  /** More bytes behind change nothing once there are enough. */
  lemma {:induction false} IdsMore(s: seq<byte>, more: seq<byte>, count: nat)
    requires IdsOf(s, count).Ids?
    ensures IdsOf(s + more, count) == IdsOf(s, count)
    decreases count
  {
    if count > 0 {
      assert (s + more)[..8] == s[..8];
      if count > 1 {
        IdsIff(Skip(s, 12), count - 1);
        assert Skip(s + more, 12) == Skip(s, 12) + more;
        IdsMore(Skip(s, 12), more, count - 1);
      }
    }
  }

  /** What Python makes of the reply that Go hands on. */
  function OfReply(r: PipelineModel.Reply): SearchResult
    requires r.Answer?
  {
    if r.status != 0 then BadStatus(r.status) else PayloadIds(r.payload)
  }

  /** Go accepts the body, and Python makes the same of Go's reply as of the body. */
  predicate Agree(body: seq<byte>) {
    var parsed := PipelineModel.ParseBody(body);
    parsed.Fine? && parsed.reply.Answer? && Decode(body) == OfReply(parsed.reply)
  }

  lemma DecodeIsPayload(body: seq<byte>)
    requires |body| >= 5
    ensures Decode(body) == if body[0] != 0 then BadStatus(body[0]) else PayloadIds(body[5..])
  {
    if |body| >= 9 {
      assert body[5..][..4] == body[5..9] && body[5..][4..] == body[9..];
    }
  }

  /** A shorter payload of the same body gives the same result exactly if it holds all that Python
      reads, or if the whole does not either. */
  lemma PrefixAgrees(whole: seq<byte>, n: nat)
    requires n <= |whole|
    ensures PayloadIds(whole[..n]) == PayloadIds(whole) <==> n >= Need(whole) || |whole| < Need(whole)
  {
    var p := whole[..n];
    PayloadIff(p);
    PayloadIff(whole);
    if n >= 4 {
      assert p[..4] == whole[..4];
      assert p[4..] + whole[n..] == whole[4..];
      if PayloadIds(p).Ids? {
        IdsMore(p[4..], whole[n..], GetU32(p[..4]));
      }
    }
  }

  /** Python ignores the payload length that Go checks and cuts at. The two readers agree on a body
      exactly if it holds the declared payload, the length does not wrap, and the status is an error,
      or the declared payload holds all that Python reads, or the body does not either. */
  lemma ReadersAgreeIff(body: seq<byte>)
    requires |body| < TWO_32
    ensures Agree(body) <==>
              && |body| >= 5 && !PipelineTheorems.Wraps(body) && 5 + GetU32(body[1..5]) <= |body|
              && (body[0] != 0 || GetU32(body[1..5]) >= Need(body[5..]) || |body| - 5 < Need(body[5..]))
  {
    PipelineTheorems.BodyParsed(body);
    if |body| >= 5 && !PipelineTheorems.Wraps(body) && 5 + GetU32(body[1..5]) <= |body| {
      var n: nat := GetU32(body[1..5]);
      assert body[5..5 + n] == body[5..][..n];
      DecodeIsPayload(body);
      PrefixAgrees(body[5..], n);
    }
  }

  /** A count of no hits, outside the empty payload that is declared: Go hands on nothing to read,
      Python reads no ids. */
  lemma DisagreeExample()
    ensures var body := [0] + PutU32(0) + PutU32(0);
            PipelineModel.ParseBody(body).Fine? && !Agree(body) && Decode(body) == Ids([])
  {
    var body := [0] + PutU32(0) + PutU32(0);
    assert body[1..5] == PutU32(0) && body[5..] == PutU32(0) && body[5..9] == PutU32(0);
    assert body[5..][..4] == PutU32(0);
    U32ReadsBack(0);
    PipelineTheorems.BodyParsed(body);
    ReadersAgreeIff(body);
  }

  /** So they agree on every response a server frames, and read its hits. */
  lemma ResponsesAgree(hits: seq<Hit>)
    requires Framable(hits)
    ensures Agree(Body(0, Payload(hits))) && Decode(Body(0, Payload(hits))) == Ids(IdList(hits))
  {
    PipelineTheorems.BodyReadsBack(0, Payload(hits));
    BodyDecodes(hits);
    DecodeIsPayload(Body(0, Payload(hits)));
    assert Body(0, Payload(hits))[5..] == Payload(hits);
  }

  // ---------- the stream ----------

  /** One response off the stream: the result and what the stream still holds. */
  function Take(s: seq<byte>): (SearchResult, seq<byte>) {
    match CutFrame(s)
    case None => (Closed, [])
    case Some((body, rest)) => (Decode(body), rest)
  }

  function TakeAll(s: seq<byte>, m: nat): (seq<SearchResult>, seq<byte>)
    decreases m
  {
    if m == 0 then ([], s)
    else
      var (r, rest) := Take(s);
      var (rs, end) := TakeAll(rest, m - 1);
      ([r] + rs, end)
  }

  predicate AllFramable(answers: seq<seq<Hit>>) {
    forall i :: 0 <= i < |answers| ==> Framable(answers[i])
  }

  function Responses(answers: seq<seq<Hit>>): seq<byte>
    requires AllFramable(answers)
  {
    if answers == [] then [] else Response(answers[0]) + Responses(answers[1..])
  }

  function Results(answers: seq<seq<Hit>>): (rs: seq<SearchResult>)
    ensures |rs| == |answers|
  {
    if answers == [] then [] else [Ids(IdList(answers[0]))] + Results(answers[1..])
  }

  /** m response frames decode to the same m id lists, and nothing after them is touched. */
  lemma {:induction false} ResponsesReadBack(answers: seq<seq<Hit>>, tail: seq<byte>)
    requires AllFramable(answers)
    ensures TakeAll(Responses(answers) + tail, |answers|) == (Results(answers), tail)
  {
    if answers == [] {
      assert Responses(answers) + tail == tail;
    } else {
      var more := Responses(answers[1..]) + tail;
      assert Responses(answers) + tail == Response(answers[0]) + more;
      CutFrameReads(Body(0, Payload(answers[0])), more);
      BodyDecodes(answers[0]);
      ResponsesReadBack(answers[1..], tail);
    }
  }

  /** A connected socket: the bytes the peer will ever send, and how many each receive may return;
      receiving nothing means the peer has closed. */
  class Socket {
    const incoming: seq<byte>
    const sizes: nat -> nat
    var pos: nat
    var calls: nat
    var sent: seq<byte>

    predicate Valid()
      reads this
    {
      pos <= |incoming|
    }

    function Rest(): seq<byte>
      reads this
      requires Valid()
    {
      incoming[pos..]
    }

    method Send(frame: seq<byte>)
      modifies this`sent
      ensures sent == old(sent) + frame
    {
      sent := sent + frame;
    }

    /** Some bytes, at most n, into buf from `from` on. */
    method RecvInto(buf: array<byte>, from: nat, n: nat) returns (r: nat)
      requires Valid() && n > 0 && from + n <= buf.Length
      modifies this`pos, this`calls, buf
      ensures Valid() && r <= n && r <= |old(Rest())|
      ensures r == 0 <==> old(Rest()) == []
      ensures Rest() == old(Rest())[r..]
      ensures buf[..from] == old(buf[..from]) && buf[from..from + r] == old(Rest())[..r]
    {
      var want := if sizes(calls) == 0 then 1 else sizes(calls);
      r := if want < n then want else n;
      if r > |incoming| - pos {
        r := |incoming| - pos;
      }
      forall i | 0 <= i < r {
        buf[from + i] := incoming[pos + i];
      }
      pos, calls := pos + r, calls + 1;
    }
  }

  /** Where a receive loop stands: `got` bytes of the stream are in the buffer. */
  lemma Received(s: seq<byte>, got: nat, r: nat)
    requires got + r <= |s|
    ensures s[..got] + s[got..][..r] == s[..got + r] && s[got..][r..] == s[got + r..]
  {
  }

  /** However the socket splits the stream, exactly its next n bytes; an error if it ends before. */
  method RecvN(sock: Socket, n: nat) returns (buf: array<byte>, ok: bool)
    requires sock.Valid()
    modifies sock`pos, sock`calls
    ensures sock.Valid() && fresh(buf)
    ensures ok <==> n <= |old(sock.Rest())|
    ensures ok ==> buf[..] == old(sock.Rest())[..n] && sock.Rest() == old(sock.Rest())[n..]
    ensures !ok ==> sock.Rest() == []
  {
    ghost var s := sock.Rest();
    buf := new byte[n];
    var got := 0;
    while got < n
      modifies sock`pos, sock`calls, buf
      invariant sock.Valid() && got <= n && got <= |s|
      invariant buf[..got] == s[..got] && sock.Rest() == s[got..]
    {
      var r := sock.RecvInto(buf, got, n - got);
      if r == 0 {
        return buf, false;
      }
      Received(s, got, r);
      assert buf[..got + r] == buf[..got] + buf[got..got + r];
      got := got + r;
    }
    assert buf[..] == buf[..n];
    return buf, true;
  }

  lemma JoinedOne(ids: seq<u64>, id: u64, rest: SearchResult)
    ensures Joined(ids, Joined([id], rest)) == Joined(ids + [id], rest)
  {
    if rest.Ids? {
      assert ids + ([id] + rest.ids) == ids + [id] + rest.ids;
    }
  }

  /** The ids read so far and the n hits still to read from `off` on. */
  function Reading(ids: seq<u64>, body: seq<byte>, off: nat, n: nat): SearchResult {
    Joined(ids, IdsOf(Skip(body, off), n))
  }

  lemma NextHit(ids: seq<u64>, body: seq<byte>, off: nat, n: nat)
    requires n > 0
    ensures off + 8 > |body| ==> Reading(ids, body, off, n) == Malformed
    ensures off + 8 <= |body| ==>
              Reading(ids, body, off, n) == Reading(ids + [GetU64(body[off..off + 8])], body, off + 12, n - 1)
  {
    var s := Skip(body, off);
    assert Skip(s, 12) == Skip(body, off + 12);
    if off + 8 <= |body| {
      assert s[..8] == body[off..off + 8];
      JoinedOne(ids, GetU64(s[..8]), IdsOf(Skip(body, off + 12), n - 1));
    }
  }

  /** The loop over a body's hits. */
  method ReadIds(body: seq<byte>) returns (r: SearchResult)
    ensures r == Decode(body)
  {
    if body == [] {
      return Malformed;
    }
    if body[0] != 0 {
      return BadStatus(body[0]);
    }
    if |body| < 9 {
      return Malformed;
    }
    var count: nat := GetU32(body[5..9]);
    var ids: seq<u64> := [];
    var off := 9;
    assert Decode(body) == IdsOf(body[9..], count);
    assert Decode(body) == Reading([], body, 9, count);
    for i := 0 to count
      invariant off == 9 + 12 * i
      invariant Decode(body) == Reading(ids, body, off, count - i)
    {
      NextHit(ids, body, off, count - i);
      if off + 8 > |body| {
        return Malformed;
      }
      ids := ids + [GetU64(body[off..off + 8])];
      off := off + 12;
    }
    return Ids(ids);
  }

  method Search(sock: Socket, frame: seq<byte>) returns (r: SearchResult)
    requires sock.Valid()
    modifies sock
    ensures sock.Valid() && sock.sent == old(sock.sent) + frame
    ensures (r, sock.Rest()) == Take(old(sock.Rest()))
  {
    sock.Send(frame);
    var head, ok := RecvN(sock, 4);
    if !ok {
      return Closed;
    }
    var body, whole := RecvN(sock, GetU32(head[..]));
    if !whole {
      return Closed;
    }
    r := ReadIds(body[..]);
  }

  /** The results so far, and m more off the stream. */
  function After(results: seq<SearchResult>, s: seq<byte>, m: nat): (seq<SearchResult>, seq<byte>) {
    (results + TakeAll(s, m).0, TakeAll(s, m).1)
  }

  lemma NextResult(results: seq<SearchResult>, s: seq<byte>, m: nat)
    requires m > 0
    ensures After(results, s, m) == After(results + [Take(s).0], Take(s).1, m - 1)
  {
    var more := TakeAll(Take(s).1, m - 1).0;
    assert results + ([Take(s).0] + more) == results + [Take(s).0] + more;
  }

  /** The client's run over its queries, on one connection: whatever the splitting, m whole
      responses on the stream give their m id lists in order. */
  method SearchEach(sock: Socket, frames: seq<seq<byte>>, ghost answers: seq<seq<Hit>>, ghost tail: seq<byte>)
    returns (results: seq<SearchResult>)
    requires sock.Valid() && AllFramable(answers) && |answers| == |frames|
    requires sock.Rest() == Responses(answers) + tail
    modifies sock
    ensures results == Results(answers) && sock.Valid() && sock.Rest() == tail
  {
    ResponsesReadBack(answers, tail);
    results := [];
    ghost var goal := After([], sock.Rest(), |frames|);
    for i := 0 to |frames|
      invariant sock.Valid() && goal == After(results, sock.Rest(), |frames| - i)
    {
      NextResult(results, sock.Rest(), |frames| - i);
      var r := Search(sock, frames[i]);
      results := results + [r];
    }
    assert results + [] == results;
  }
}
