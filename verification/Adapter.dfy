/** The load and query paths of vectordbbench/rostam/rostam.py: which wire each request uses, when
    the client falls back from binary to JSON, what the server has applied when a call returns, and
    which filter a search carries. A server answers each request with a status, or the request
    raises; only status 200 applies a chunk, and a request that raises may or may not have
    applied it. */
module Adapter {
  import opened Bytes
  import opened Json
  import opened RvWire

  const INSERT_BATCH: nat := 1000

  datatype Reply = Status(code: nat) | Raised(applied: bool)

  datatype Wire = BinaryWire | JsonWire

  /** _binary and _binary_proven, or _binary_query and _binary_query_proven. */
  datatype Flags = Flags(on: bool, proven: bool)

  /** A request for the chunk beginning at row `start`, and what came back. */
  datatype Sent = Sent(start: nat, wire: Wire, reply: Reply)

  /** What insert_embeddings returns: (n, None), (at, RuntimeError), or (0, e). */
  datatype LoadEnd = Complete | Stopped(at: nat) | Excepted

  datatype LoadRun = LoadRun(flags: Flags, sent: seq<Sent>, end: LoadEnd)

  /** _BINARY_UNSUPPORTED. */
  predicate Unsupported(code: nat) {
    code == 400 || code == 404 || code == 415
  }

  predicate Consistent(f: Flags) {
    f.proven ==> f.on
  }

  function ChunkEnd(start: nat, n: nat): nat {
    if start + INSERT_BATCH < n then start + INSERT_BATCH else n
  }

  function Then(first: Sent, run: LoadRun): LoadRun {
    LoadRun(run.flags, [first] + run.sent, run.end)
  }

  /** insert_embeddings from row `start` on; replies(t) is the reply to the t-th request. */
  function Load(f: Flags, start: nat, n: nat, replies: nat -> Reply, t: nat): (run: LoadRun)
    ensures run.sent != [] ==> run.sent[0].start == start
    decreases n - start, f.on
  {
    if start >= n then LoadRun(f, [], Complete)
    else
      var s := Sent(start, if f.on then BinaryWire else JsonWire, replies(t));
      match replies(t)
      case Raised(_) => LoadRun(f, [s], Excepted)
      case Status(code) =>
        if f.on && Unsupported(code) && !f.proven then
          Then(s, Load(Flags(false, f.proven), start, n, replies, t + 1))
        else if code != 200 then LoadRun(f, [s], Stopped(start))
        else
          Then(s, Load(if f.on then Flags(true, true) else f, ChunkEnd(start, n), n, replies, t + 1))
  }

  // ---------- exactly once ----------

  predicate AppliedBy(r: Reply) {
    r == Status(200) || r == Raised(true)
  }

  /** lo, lo + 1, ..., hi - 1. */
  function Range(lo: nat, hi: nat): (r: seq<nat>)
    ensures lo <= hi ==> |r| == hi - lo && forall i :: 0 <= i < |r| ==> r[i] == lo + i
  {
    if lo >= hi then [] else seq(hi - lo, i => lo + i)
  }

  /** The rows the server has applied, in the order it applied them. */
  function Rows(sent: seq<Sent>, n: nat): seq<nat> {
    if sent == [] then []
    else
      (if AppliedBy(sent[0].reply) then Range(sent[0].start, ChunkEnd(sent[0].start, n)) else [])
      + Rows(sent[1..], n)
  }

  /** What an end promises about the rows applied since row `from`: completing applies the rest
      once each in order, stopping at c applies exactly the rows before c, and an exception leaves
      some prefix. */
  predicate Promises(end: LoadEnd, rows: seq<nat>, from: nat, n: nat) {
    match end
    case Complete => rows == Range(from, n)
    case Stopped(c) => from <= c < n && rows == Range(from, c)
    case Excepted => exists m :: from <= m <= n && rows == Range(from, m)
  }

  lemma RangeSplit(lo: nat, mid: nat, hi: nat)
    requires lo <= mid <= hi
    ensures Range(lo, mid) + Range(mid, hi) == Range(lo, hi)
  {
  }

  lemma ChunkThenRest(end: LoadEnd, rows: seq<nat>, start: nat, n: nat)
    requires start < n && Promises(end, rows, ChunkEnd(start, n), n)
    ensures Promises(end, Range(start, ChunkEnd(start, n)) + rows, start, n)
  {
    var mid := ChunkEnd(start, n);
    match end
    case Complete => RangeSplit(start, mid, n);
    case Stopped(c) => RangeSplit(start, mid, c);
    case Excepted =>
      var m :| mid <= m <= n && rows == Range(mid, m);
      RangeSplit(start, mid, m);
  }

  lemma RowsOfThen(first: Sent, run: LoadRun, n: nat)
    ensures Rows(Then(first, run).sent, n) ==
              (if AppliedBy(first.reply) then Range(first.start, ChunkEnd(first.start, n)) else [])
              + Rows(run.sent, n)
  {
    assert Then(first, run).sent[1..] == run.sent;
  }

  lemma RowsOfOne(first: Sent, n: nat)
    ensures Rows([first], n) ==
              if AppliedBy(first.reply) then Range(first.start, ChunkEnd(first.start, n)) else []
  {
    assert [first][1..] == [];
    assert Rows([], n) == [];
  }

  /** Whatever the server answers, a load keeps its promise. */
  lemma {:induction false} LoadsOnce(f: Flags, start: nat, n: nat, replies: nat -> Reply, t: nat)
    requires start <= n
    ensures var run := Load(f, start, n, replies, t); Promises(run.end, Rows(run.sent, n), start, n)
    decreases n - start, f.on
  {
    if start < n {
      var s := Sent(start, if f.on then BinaryWire else JsonWire, replies(t));
      var end := ChunkEnd(start, n);
      if replies(t).Raised? || (replies(t).code != 200 && !(f.on && Unsupported(replies(t).code) && !f.proven)) {
        RowsOfOne(s, n);
        assert Range(start, start) == [];
      } else if replies(t).code == 200 {
        var g := if f.on then Flags(true, true) else f;
        var rest := Load(g, end, n, replies, t + 1);
        LoadsOnce(g, end, n, replies, t + 1);
        RowsOfThen(s, rest, n);
        ChunkThenRest(rest.end, Rows(rest.sent, n), start, n);
      } else {
        var rest := Load(Flags(false, f.proven), start, n, replies, t + 1);
        LoadsOnce(Flags(false, f.proven), start, n, replies, t + 1);
        RowsOfThen(s, rest, n);
        assert [] + Rows(rest.sent, n) == Rows(rest.sent, n);
      }
    }
  }

  // ---------- the fallback ----------

  /** The chunks that went out twice, one request after the other. */
  function Resent(sent: seq<Sent>): seq<nat> {
    if |sent| < 2 then []
    else (if sent[0].start == sent[1].start then [sent[0].start] else []) + Resent(sent[1..])
  }

  /** One load resends a chunk exactly when it turns the binary wire off, and then only the chunk
      it began with; a proven wire, or one already off, stays as it was. */
  lemma {:induction false} FallsBackFirst(f: Flags, start: nat, n: nat, replies: nat -> Reply, t: nat)
    requires Consistent(f)
    ensures var run := Load(f, start, n, replies, t);
            && Consistent(run.flags)
            && (f.proven || !f.on ==> run.flags == f)
            && Resent(run.sent) == if f.on && !run.flags.on then [start] else []
    decreases n - start, f.on
  {
    if start < n && replies(t).Status? {
      var code := replies(t).code;
      if f.on && Unsupported(code) && !f.proven {
        var rest := Load(Flags(false, f.proven), start, n, replies, t + 1);
        FallsBackFirst(Flags(false, f.proven), start, n, replies, t + 1);
        assert Load(f, start, n, replies, t).sent[1..] == rest.sent;
        assert rest.sent != [];
      } else if code == 200 {
        var g := if f.on then Flags(true, true) else f;
        FallsBackFirst(g, ChunkEnd(start, n), n, replies, t + 1);
        assert Load(f, start, n, replies, t).sent[1..] == Load(g, ChunkEnd(start, n), n, replies, t + 1).sent;
      }
    }
  }

  // ---------- searches ----------

  /** A status with the hits its body held, if any could be read; or no response at all. */
  datatype SearchReply = Answer(code: nat, hits: Option<seq<int>>) | NoAnswer

  datatype SearchEnd = Hits(ids: seq<int>) | Failed

  datatype SearchRun = SearchRun(flags: Flags, wires: seq<Wire>, end: SearchEnd)

  /** raise_for_status. */
  predicate Refused(code: nat) {
    400 <= code < 600
  }

  function Read(r: SearchReply): SearchEnd {
    if r.NoAnswer? || Refused(r.code) || r.hits.None? then Failed else Hits(r.hits.value)
  }

  /** search_embedding; `fits` says that the binary body can hold the request at all. */
  function Search(f: Flags, fits: bool, replies: nat -> SearchReply, t: nat): SearchRun {
    if !f.on then SearchRun(f, [JsonWire], Read(replies(t)))
    else if !fits then SearchRun(f, [], Failed)
    else
      var r := replies(t);
      if r.NoAnswer? then SearchRun(f, [BinaryWire], Failed)
      else if Unsupported(r.code) && !f.proven then
        SearchRun(Flags(false, f.proven), [BinaryWire, JsonWire], Read(replies(t + 1)))
      else if Refused(r.code) then SearchRun(f, [BinaryWire], Failed)
      else SearchRun(Flags(true, true), [BinaryWire], Read(r))
  }

  // ---------- filters ----------

  datatype LoadPath = BulkPath | PayloadPath | BatchPath

  datatype Filter = NonFilter | NumGE(field: Text, value: int) | OtherFilter

  const OP: Text := [111, 112]
  const GTE: Text := [103, 116, 101]
  const FIELD: Text := [102, 105, 101, 108, 100]
  const VALUE: Text := [118, 97, 108, 117, 101]

  /** {"op": "gte", "field": ..., "value": {"kind": "int", "int": ...}} */
  function FilterJson(field: Text, value: int): Json {
    Obj(Member(OP, Str(GTE), Member(FIELD, Str(field), Member(VALUE, IntField(value), Nil))))
  }

  /** query_filter after prepare_filter, or None when it raises. */
  function Prepared(path: LoadPath, filter: Filter): Option<Option<Json>> {
    match filter
    case NonFilter => Some(None)
    case NumGE(field, value) => if path.BulkPath? then None else Some(Some(FilterJson(field, value)))
    case OtherFilter => None
  }

  // ---------- a client's whole life ----------

  /** The replies to an event begin at the t-th of its kind. */
  datatype Event =
    | Insert(n: nat, replies: nat -> Reply, t: nat)
    | Ask(fits: bool, answers: nat -> SearchReply, t: nat)
    | Prepare(filter: Filter)

  datatype Client = Client(path: LoadPath, insert: Flags, query: Flags, filter: Option<Json>, blob: seq<byte>)

  predicate Sound(c: Client) {
    && Consistent(c.insert) && Consistent(c.query)
    && c.blob == BlobOf(c.filter)
    && (c.path.BulkPath? ==> c.filter.None?)
  }

  function After(c: Client, e: Event): Client {
    match e
    case Insert(n, replies, t) => c.(insert := Load(c.insert, 0, n, replies, t).flags)
    case Ask(fits, answers, t) => c.(query := Search(c.query, fits, answers, t).flags)
    case Prepare(filter) =>
      match Prepared(c.path, filter)
      case None => c
      case Some(q) => c.(filter := q, blob := BlobOf(q))
  }

  function Life(c: Client, events: seq<Event>): Client
    decreases |events|
  {
    if events == [] then c else Life(After(c, events[0]), events[1..])
  }

  /** Chunks and searches that one event sends twice. */
  function Repeats(c: Client, e: Event): (nat, nat) {
    match e
    case Insert(n, replies, t) => (|Resent(Load(c.insert, 0, n, replies, t).sent)|, 0)
    case Ask(fits, answers, t) => (0, if |Search(c.query, fits, answers, t).wires| == 2 then 1 else 0)
    case Prepare(_) => (0, 0)
  }

  function LifeRepeats(c: Client, events: seq<Event>): (nat, nat)
    decreases |events|
  {
    if events == [] then (0, 0)
    else
      var now, later := Repeats(c, events[0]), LifeRepeats(After(c, events[0]), events[1..]);
      (now.0 + later.0, now.1 + later.1)
  }

  function Chances(f: Flags): nat {
    if f.on then 1 else 0
  }

  lemma EventKeeps(c: Client, e: Event)
    requires Sound(c)
    ensures var d := After(c, e);
            && Sound(d) && d.path == c.path
            && (c.insert.proven ==> d.insert == c.insert) && (!c.insert.on ==> d.insert == c.insert)
            && (c.query.proven ==> d.query == c.query) && (!c.query.on ==> d.query == c.query)
            && Chances(d.insert) + Repeats(c, e).0 == Chances(c.insert)
            && Chances(d.query) + Repeats(c, e).1 == Chances(c.query)
  {
    if e.Insert? {
      FallsBackFirst(c.insert, 0, e.n, e.replies, e.t);
    }
  }

  /** Over any sequence of loads, searches and filters, including ones that raise: proven implies
      the wire is on, neither wire comes back once off, the filter blob encodes the filter, a bulk
      client never holds a filter, and each wire costs exactly one repeated request if it is ever
      turned off and none otherwise. */
  lemma {:induction false} LifeKeeps(c: Client, events: seq<Event>)
    requires Sound(c)
    ensures var d := Life(c, events);
            && Sound(d) && d.path == c.path
            && (c.insert.proven || !c.insert.on ==> d.insert == c.insert)
            && (c.query.proven || !c.query.on ==> d.query == c.query)
            && Chances(d.insert) + LifeRepeats(c, events).0 == Chances(c.insert)
            && Chances(d.query) + LifeRepeats(c, events).1 == Chances(c.query)
    decreases |events|
  {
    if events != [] {
      EventKeeps(c, events[0]);
      LifeKeeps(After(c, events[0]), events[1..]);
    }
  }

  function Only(events: seq<Event>, inserts: bool): seq<Event> {
    if events == [] then []
    else (if events[0].Insert? == inserts then [events[0]] else []) + Only(events[1..], inserts)
  }

  /** Two clients alike in one half act alike in it, whatever the other half does. */
  lemma {:induction false} InsertsAlone(c: Client, d: Client, events: seq<Event>)
    requires c.insert == d.insert
    ensures Life(c, events).insert == Life(d, Only(events, true)).insert
    ensures LifeRepeats(c, events).0 == LifeRepeats(d, Only(events, true)).0
    decreases |events|
  {
    if events != [] {
      var e, rest := events[0], Only(events[1..], true);
      if e.Insert? {
        assert Only(events, true)[0] == e && Only(events, true)[1..] == rest;
        InsertsAlone(After(c, e), After(d, e), events[1..]);
      } else {
        assert Only(events, true) == rest;
        InsertsAlone(After(c, e), d, events[1..]);
      }
    }
  }

  lemma {:induction false} QueriesAlone(c: Client, d: Client, events: seq<Event>)
    requires c.query == d.query && c.path == d.path && c.filter == d.filter && c.blob == d.blob
    ensures var a, b := Life(c, events), Life(d, Only(events, false));
            a.query == b.query && a.filter == b.filter && a.blob == b.blob
    ensures LifeRepeats(c, events).1 == LifeRepeats(d, Only(events, false)).1
    decreases |events|
  {
    if events != [] {
      var e, rest := events[0], Only(events[1..], false);
      if e.Insert? {
        assert Only(events, false) == rest;
        QueriesAlone(After(c, e), d, events[1..]);
      } else {
        assert Only(events, false)[0] == e && Only(events, false)[1..] == rest;
        QueriesAlone(After(c, e), After(d, e), events[1..]);
      }
    }
  }

  /** Loads and searches never influence each other: each behaves as if the other's events had
      not happened. */
  lemma HalvesIndependent(c: Client, events: seq<Event>)
    ensures Life(c, events).insert == Life(c, Only(events, true)).insert
    ensures Life(c, events).query == Life(c, Only(events, false)).query
    ensures Life(c, events).filter == Life(c, Only(events, false)).filter
    ensures LifeRepeats(c, events) ==
              (LifeRepeats(c, Only(events, true)).0, LifeRepeats(c, Only(events, false)).1)
  {
    InsertsAlone(c, c, events);
    QueriesAlone(c, c, events);
  }
}
