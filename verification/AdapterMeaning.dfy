/** The adapter's decisions in terms of status codes, rows and bytes: what each answer of a server
    makes the next request and the return value, and what the filters it sends mean. */
module AdapterMeaning {
  import opened Bytes
  import opened Json
  import opened RvWire
  import opened Adapter

  // ---------- loads ----------

  /** The first request of a load, or of what is left of one, goes out for the next row, on the binary
      wire exactly if that is on. */
  lemma FirstRequest(f: Flags, start: nat, n: nat, replies: nat -> Reply, t: nat)
    requires start < n
    ensures var run := Load(f, start, n, replies, t);
            run.sent != [] && run.sent[0] == Sent(start, if f.on then BinaryWire else JsonWire, replies(t))
  {
  }

  /** A binary wire that no request has proven, answered by 400, 404 or 415: it is off from then on,
      and the same rows go out as JSON next. */
  lemma FallsBackOn(start: nat, n: nat, replies: nat -> Reply, t: nat)
    requires start < n && replies(t) in [Status(400), Status(404), Status(415)]
    ensures var run := Load(Flags(true, false), start, n, replies, t);
            && !run.flags.on && |run.sent| >= 2
            && run.sent[0] == Sent(start, BinaryWire, replies(t))
            && run.sent[1] == Sent(start, JsonWire, replies(t + 1))
  {
    var rest := Load(Flags(false, false), start, n, replies, t + 1);
    FirstRequest(Flags(false, false), start, n, replies, t + 1);
    FallsBackFirst(Flags(false, false), start, n, replies, t + 1);
    assert Load(Flags(true, false), start, n, replies, t) == Then(Sent(start, BinaryWire, replies(t)), rest);
  }

  /** Any other status but 200 ends the load at that row, and so do these three on a wire that is
      proven or is JSON already. */
  lemma StopsOn(f: Flags, start: nat, n: nat, replies: nat -> Reply, t: nat, code: nat)
    requires start < n && replies(t) == Status(code) && code != 200
    requires !f.on || f.proven || code !in [400, 404, 415]
    ensures var run := Load(f, start, n, replies, t);
            run.end == Stopped(start) && |run.sent| == 1 && run.flags == f
  {
  }

  /** A request that raises ends the load too. */
  lemma RaisesOn(f: Flags, start: nat, n: nat, replies: nat -> Reply, t: nat)
    requires start < n && replies(t).Raised?
    ensures var run := Load(f, start, n, replies, t);
            run.end == Excepted && |run.sent| == 1 && run.flags == f
  {
  }

  /** After a 200 the load goes on a thousand rows further, on the same wire, a binary one being proven;
      or it is complete. */
  lemma GoesOn(f: Flags, start: nat, n: nat, replies: nat -> Reply, t: nat)
    requires start < n && replies(t) == Status(200)
    ensures var run, g := Load(f, start, n, replies, t), if f.on then Flags(true, true) else f;
            if start + 1000 >= n then run.end == Complete && |run.sent| == 1 && run.flags == g
            else
              var rest := Load(g, start + 1000, n, replies, t + 1);
              run.end == rest.end && run.flags == rest.flags && run.sent[1..] == rest.sent
  {
    if start + 1000 < n {
      var g := if f.on then Flags(true, true) else f;
      assert Load(f, start, n, replies, t)
          == Then(Sent(start, if f.on then BinaryWire else JsonWire, replies(t)), Load(g, start + 1000, n, replies, t + 1));
    }
  }

  /** The chunks of a load on one wire, one after the other from row start on. */
  predicate InChunks(sent: seq<Sent>, start: nat, n: nat, wire: Wire) {
    && (forall i :: 0 <= i < |sent| ==> sent[i] == Sent(start + 1000 * i, wire, Status(200)))
    && start + 1000 * |sent| >= n
    && (|sent| > 0 ==> start + 1000 * (|sent| - 1) < n)
  }

  ghost predicate AllOk(replies: nat -> Reply, t: nat) {
    forall k :: k >= t ==> replies(k) == Status(200)
  }

  lemma {:induction false} ChunksGoOut(f: Flags, start: nat, n: nat, replies: nat -> Reply, t: nat)
    requires AllOk(replies, t)
    ensures var run := Load(f, start, n, replies, t);
            && run.end == Complete && InChunks(run.sent, start, n, if f.on then BinaryWire else JsonWire)
            && run.flags == if f.on && start < n then Flags(true, true) else f
    decreases if start < n then n - start else 0
  {
    if start < n {
      GoesOn(f, start, n, replies, t);
      FirstRequest(f, start, n, replies, t);
      if start + 1000 < n {
        var g := if f.on then Flags(true, true) else f;
        var sent, rest := Load(f, start, n, replies, t).sent, Load(g, start + 1000, n, replies, t + 1).sent;
        ChunksGoOut(g, start + 1000, n, replies, t + 1);
        OneMoreChunk(sent, rest, start, n, if f.on then BinaryWire else JsonWire);
      }
    }
  }

  lemma OneMoreChunk(sent: seq<Sent>, rest: seq<Sent>, start: nat, n: nat, wire: Wire)
    requires sent != [] && sent[0] == Sent(start, wire, Status(200)) && sent[1..] == rest
    requires start < n && InChunks(rest, start + 1000, n, wire)
    ensures InChunks(sent, start, n, wire)
  {
    forall i | 0 <= i < |sent| ensures sent[i] == Sent(start + 1000 * i, wire, Status(200)) {
      if i > 0 {
        assert sent[i] == rest[i - 1];
      }
    }
  }

  /** A server without the binary wire refuses the first request with 400, 404 or 415 and takes JSON:
      the load completes, one request wasted, every chunk on JSON, and the wire stays off. */
  lemma OldServer(n: nat, replies: nat -> Reply, t: nat)
    requires n > 0 && replies(t) in [Status(400), Status(404), Status(415)] && AllOk(replies, t + 1)
    ensures var run := Load(Flags(true, false), 0, n, replies, t);
            && run.end == Complete && run.flags == Flags(false, false)
            && run.sent[0] == Sent(0, BinaryWire, replies(t)) && InChunks(run.sent[1..], 0, n, JsonWire)
  {
    var rest := Load(Flags(false, false), 0, n, replies, t + 1);
    ChunksGoOut(Flags(false, false), 0, n, replies, t + 1);
    assert Load(Flags(true, false), 0, n, replies, t) == Then(Sent(0, BinaryWire, replies(t)), rest);
  }

  // ---------- searches ----------

  /** The reply makes search_embedding return these ids. */
  predicate Delivers(r: SearchReply, ids: seq<int>) {
    r.Answer? && !(400 <= r.code < 600) && r.hits == Some(ids)
  }

  predicate Rejects(r: SearchReply) {
    r.Answer? && r.code in [400, 404, 415]
  }

  /** A search makes one request, on the binary wire if it is on; a second one, as JSON, exactly if that
      wire is unproven and answered by 400, 404 or 415; and none exactly if it is on and cannot hold
      the request. It returns the ids of its last reply, unless that is an error or unreadable. */
  lemma SearchMeans(f: Flags, fits: bool, replies: nat -> SearchReply, t: nat, ids: seq<int>)
    ensures var run := Search(f, fits, replies, t);
            && run.wires == (if !f.on then [JsonWire]
                             else if !fits then []
                             else if Rejects(replies(t)) && !f.proven then [BinaryWire, JsonWire]
                             else [BinaryWire])
            && (run.end == Hits(ids) <==> run.wires != [] && Delivers(replies(t + |run.wires| - 1), ids))
            && run.flags == (if |run.wires| == 2 then Flags(false, f.proven)
                             else if |run.wires| == 1 && f.on && replies(t).Answer? && !(400 <= replies(t).code < 600)
                             then Flags(true, true)
                             else f)
  {
  }

  // ---------- filters ----------

  function Field(ms: Members, key: Text): Option<Json> {
    match ms
    case Nil => None
    case Member(k, v, rest) => if k == key then Some(v) else Field(rest, key)
  }

  /** The int of {"kind": "int", "int": ...}. */
  function IntOf(j: Json): Option<int> {
    if !j.Obj? then None
    else
      match (Field(j.members, [107, 105, 110, 100]), Field(j.members, [105, 110, 116]))
      case (Some(Str(kind)), Some(Num(n))) => if kind == [105, 110, 116] then Some(n) else None
      case _ => None
  }

  /** A server's reading of {"op": "gte", "field": f, "value": v}: the payload's field f is an int not
      below v. */
  predicate Selects(filter: Json, payload: Json) {
    && filter.Obj? && payload.Obj?
    && Field(filter.members, [111, 112]) == Some(Str([103, 116, 101]))
    && match (Field(filter.members, [102, 105, 101, 108, 100]), Field(filter.members, [118, 97, 108, 117, 101]))
       case (Some(Str(f)), Some(v)) =>
         (match (Field(payload.members, f), IntOf(v))
          case (Some(x), Some(bound)) => IntOf(x).Some? && IntOf(x).value >= bound
          case _ => false)
       case _ => false
  }

  /** A NumGE filter on "id" selects, among the points a load has stored, exactly those whose id is not
      below its value: filter and payload name the same field and the same kind of int. */
  lemma FilterSelects(value: int, id: u64)
    ensures Selects(FilterJson([105, 100], value), PayloadOf(id)) <==> id >= value
  {
    var ms := FilterJson([105, 100], value).members;
    assert Field(ms.rest.rest, [118, 97, 108, 117, 101]) == Some(IntField(value));
    assert Field(ms.rest, [118, 97, 108, 117, 101]) == Some(IntField(value));
    assert Field(ms.rest, [102, 105, 101, 108, 100]) == Some(Str([105, 100]));
    assert Field(PayloadOf(id).members, [105, 100]) == Some(IntField(id));
    IntOfField(id);
    IntOfField(value);
  }

  lemma IntOfField(n: int)
    ensures IntOf(IntField(n)) == Some(n)
  {
    var ms := IntField(n).members;
    assert Field(ms.rest, [105, 110, 116]) == Some(Num(n));
  }

  lemma OpTexts()
    ensures Quoted(OP) == [34, 111, 112, 34] && Quoted(GTE) == [34, 103, 116, 101, 34]
  {
    assert Escaped(OP) == Escape(111) + (Escape(112) + Escaped([]));
    assert Escaped(GTE) == Escape(103) + Escaped([116, 101]);
    assert Escaped([116, 101]) == Escape(116) + (Escape(101) + Escaped([]));
  }

  lemma FieldText()
    ensures Quoted(FIELD) == [34, 102, 105, 101, 108, 100, 34]
  {
    assert Escaped(FIELD) == Escape(102) + Escaped([105, 101, 108, 100]);
    assert Escaped([105, 101, 108, 100]) == Escape(105) + Escaped([101, 108, 100]);
    assert Escaped([101, 108, 100]) == Escape(101) + Escaped([108, 100]);
    assert Escaped([108, 100]) == Escape(108) + (Escape(100) + Escaped([]));
  }

  lemma ValueText()
    ensures Quoted(VALUE) == [34, 118, 97, 108, 117, 101, 34]
  {
    assert Escaped(VALUE) == Escape(118) + Escaped([97, 108, 117, 101]);
    assert Escaped([97, 108, 117, 101]) == Escape(97) + Escaped([108, 117, 101]);
    assert Escaped([108, 117, 101]) == Escape(108) + Escaped([117, 101]);
    assert Escaped([117, 101]) == Escape(117) + (Escape(101) + Escaped([]));
  }

  lemma PrintsMore(st: Style, k: Text, v: Json, rest: Members)
    requires rest.Member?
    ensures PrintMembers(st, Member(k, v, rest)) == Quoted(k) + (st.colon + (Print(st, v) + (st.comma + PrintMembers(st, rest))))
  {
  }

  /** An object of two members, and one of three, from the texts of their parts. */
  function Two(k1: seq<byte>, v1: seq<byte>, k2: seq<byte>, v2: seq<byte>): seq<byte> {
    [123] + ((k1 + ([58, 32] + (v1 + ([44, 32] + (k2 + ([58, 32] + v2)))))) + [125])
  }

  function Three(k1: seq<byte>, v1: seq<byte>, k2: seq<byte>, v2: seq<byte>, k3: seq<byte>, v3: seq<byte>): seq<byte> {
    [123] + ((k1 + ([58, 32] + (v1 + ([44, 32] + (k2 + ([58, 32] + (v2 + ([44, 32] + (k3 + ([58, 32] + v3)))))))))) + [125])
  }

  lemma PrintsTwo(k1: Text, v1: Json, k2: Text, v2: Json)
    ensures Print(DEFAULT, Obj(Member(k1, v1, Member(k2, v2, Nil)))) ==
              Two(Quoted(k1), Print(DEFAULT, v1), Quoted(k2), Print(DEFAULT, v2))
  {
    PrintsLast(DEFAULT, k2, v2);
    PrintsMore(DEFAULT, k1, v1, Member(k2, v2, Nil));
  }

  lemma PrintsThree(k1: Text, v1: Json, k2: Text, v2: Json, k3: Text, v3: Json)
    ensures Print(DEFAULT, Obj(Member(k1, v1, Member(k2, v2, Member(k3, v3, Nil))))) ==
              Three(Quoted(k1), Print(DEFAULT, v1), Quoted(k2), Print(DEFAULT, v2), Quoted(k3), Print(DEFAULT, v3))
  {
    PrintsLast(DEFAULT, k3, v3);
    PrintsMore(DEFAULT, k2, v2, Member(k3, v3, Nil));
    PrintsMore(DEFAULT, k1, v1, Member(k2, v2, Member(k3, v3, Nil)));
  }

  lemma TwoBytes(d: seq<byte>)
    ensures Two([34, 107, 105, 110, 100, 34], [34, 105, 110, 116, 34], [34, 105, 110, 116, 34], d) ==
              [123, 34, 107, 105, 110, 100, 34, 58, 32, 34, 105, 110, 116, 34, 44, 32, 34, 105, 110, 116, 34, 58, 32]
              + d + [125]
  {
  }

  lemma ThreeBytes(f: seq<byte>, v: seq<byte>)
    ensures Three([34, 111, 112, 34], [34, 103, 116, 101, 34], [34, 102, 105, 101, 108, 100, 34], f,
                  [34, 118, 97, 108, 117, 101, 34], v) ==
              [123, 34, 111, 112, 34, 58, 32, 34, 103, 116, 101, 34, 44, 32, 34, 102, 105, 101, 108, 100, 34, 58, 32]
              + f + [44, 32, 34, 118, 97, 108, 117, 101, 34, 58, 32] + v + [125]
  {
  }

  /** {"kind": "int", "int": n}, byte for byte. */
  lemma IntFieldBytes(n: int)
    ensures Print(DEFAULT, IntField(n)) ==
              [123, 34, 107, 105, 110, 100, 34, 58, 32, 34, 105, 110, 116, 34, 44, 32, 34, 105, 110, 116, 34, 58, 32]
              + PrintNum(n) + [125]
  {
    RvWire.PlainTexts();
    PrintsTwo(KIND, Str(INT), INT, Num(n));
    TwoBytes(PrintNum(n));
  }

  /** {"op": "gte", "field": f, "value": v}, byte for byte: the filter blob. */
  lemma FilterBytes(field: Text, value: int)
    ensures Print(DEFAULT, FilterJson(field, value)) ==
              [123, 34, 111, 112, 34, 58, 32, 34, 103, 116, 101, 34, 44, 32, 34, 102, 105, 101, 108, 100, 34, 58, 32]
              + Quoted(field) + [44, 32, 34, 118, 97, 108, 117, 101, 34, 58, 32] + Print(DEFAULT, IntField(value)) + [125]
  {
    OpTexts();
    FieldText();
    ValueText();
    PrintsThree(OP, Str(GTE), FIELD, Str(field), VALUE, IntField(value));
    ThreeBytes(Quoted(field), Print(DEFAULT, IntField(value)));
  }
}
