/** The client object of vectordbbench/rostam/rostam.py, with the fields it updates, against a
    server that records what it applied and what it was asked. */
module AdapterClient {
  import opened Bytes
  import opened Json
  import opened RvWire
  import opened Adapter
  import opened AdapterMeaning

  /** A point in the server, and whether it came by upsert. */
  datatype Stored = Stored(point: Point, upsert: bool)

  function StoredOf(b: Bulk): (s: seq<Stored>)
    ensures |s| == |b.points|
  {
    seq(|b.points|, i requires 0 <= i < |b.points| => Stored(b.points[i], b.upsert))
  }

  /** Row i as the caller means it. */
  function Wanted(ids: seq<u64>, rows: seq<seq<u32>>, payloads: bool, upsert: bool): (s: seq<Stored>)
    requires |ids| == |rows|
    ensures |s| == |ids|
  {
    seq(|ids|, i requires 0 <= i < |ids| =>
      Stored(Point(ids[i], rows[i], if payloads then Some(PayloadOf(ids[i])) else None), upsert))
  }

  /** The server's points after a request that reads as `bulk` and was answered with r. */
  function Accept(points: seq<Stored>, r: Reply, bulk: Option<Bulk>): seq<Stored> {
    if AppliedBy(r) && bulk.Some? then points + StoredOf(bulk.value) else points
  }

  /** Answers are arbitrary; the rest of the state is what the answers did. */
  class HttpServer {
    const replies: nat -> Reply
    const answers: nat -> SearchReply
    var inserts: nat
    var searches: nat
    var points: seq<Stored>
    var queries: seq<Option<Query>>

    method PostBinary(body: seq<byte>) returns (r: Reply)
      modifies this`inserts, this`points
      ensures r == replies(old(inserts)) && inserts == old(inserts) + 1
      ensures points == Accept(old(points), r, DecodeBulk(body))
    {
      r := replies(inserts);
      inserts := inserts + 1;
      points := Accept(points, r, DecodeBulk(body));
    }

    method PostJson(body: JsonBody) returns (r: Reply)
      modifies this`inserts, this`points
      ensures r == replies(old(inserts)) && inserts == old(inserts) + 1
      ensures points == Accept(old(points), r, Some(JsonMeaning(body)))
    {
      r := replies(inserts);
      inserts := inserts + 1;
      points := Accept(points, r, Some(JsonMeaning(body)));
    }

    method AskBinary(body: seq<byte>) returns (r: SearchReply)
      modifies this`searches, this`queries
      ensures r == answers(old(searches)) && searches == old(searches) + 1
      ensures queries == old(queries) + [DecodeQuery(body)]
    {
      r := answers(searches);
      searches, queries := searches + 1, queries + [DecodeQuery(body)];
    }

    /** The JSON body is the query, k, and the filter when there is one. */
    method AskJson(query: seq<u32>, k: int, filter: Option<Json>) returns (r: SearchReply)
      modifies this`searches, this`queries
      ensures r == answers(old(searches)) && searches == old(searches) + 1
      ensures queries == old(queries) + [Some(Query(query, k, filter))]
    {
      r := answers(searches);
      searches, queries := searches + 1, queries + [Some(Query(query, k, filter))];
    }
  }

  /** The exceptions insert_embeddings hands back as values. */
  datatype Failure = RuntimeError | OtherException

  function Returned(end: LoadEnd, n: nat): (nat, Option<Failure>) {
    match end
    case Complete => (n, None)
    case Stopped(c) => (c, Some(RuntimeError))
    case Excepted => (0, Some(OtherException))
  }

  /** The rest of a load, from row `start` and request `now` on, ends as the whole run does. */
  predicate Continues(run: LoadRun, t: nat, f: Flags, start: nat, n: nat, replies: nat -> Reply, now: nat) {
    var rest := Load(f, start, n, replies, now);
    rest.flags == run.flags && rest.end == run.end && now + |rest.sent| == t + |run.sent|
  }

  /** One chunk: the flags after it, how many requests it took, and the last reply. */
  function Chunk(f: Flags, replies: nat -> Reply, now: nat): (Flags, nat, Reply) {
    var r := replies(now);
    if r.Status? && f.on && Unsupported(r.code) && !f.proven then (Flags(false, f.proven), 2, replies(now + 1))
    else (if r == Status(200) && f.on then Flags(true, true) else f, 1, r)
  }

  /** A second request for a chunk is made exactly if the binary wire is on, unproven, and answered by
      400, 404 or 415, which turns it off; a 200 proves a wire that is on; nothing else changes. */
  lemma ChunkMeans(f: Flags, replies: nat -> Reply, now: nat)
    ensures var (g, used, r) := Chunk(f, replies, now);
            && used == (if f.on && !f.proven && replies(now) in [Status(400), Status(404), Status(415)] then 2 else 1)
            && r == replies(now + used - 1)
            && g == (if used == 2 then Flags(false, f.proven)
                     else if f.on && replies(now) == Status(200) then Flags(true, true)
                     else f)
  {
  }

  lemma StepLoad(run: LoadRun, t: nat, f: Flags, start: nat, n: nat, replies: nat -> Reply, now: nat)
    requires Continues(run, t, f, start, n, replies, now) && start < n
    ensures var (g, used, r) := Chunk(f, replies, now);
            if r == Status(200) then Continues(run, t, g, ChunkEnd(start, n), n, replies, now + used)
            else
              && run.flags == g && now + used == t + |run.sent|
              && run.end == if r.Raised? then Excepted else Stopped(start)
  {
    var (g, used, r) := Chunk(f, replies, now);
    if used == 2 {
      assert Load(f, start, n, replies, now)
          == Then(Sent(start, BinaryWire, replies(now)), Load(g, start, n, replies, now + 1));
    }
  }

  lemma LoadEnds(run: LoadRun, t: nat, f: Flags, n: nat, replies: nat -> Reply, now: nat)
    requires Continues(run, t, f, n, n, replies, now)
    ensures run.flags == f && run.end == Complete && now == t + |run.sent|
  {
  }

  predicate Rectangular(ids: seq<u64>, rows: seq<seq<u32>>, dim: nat) {
    |ids| == |rows| && dim < TWO_32 && forall i :: 0 <= i < |rows| ==> |rows[i]| == dim
  }

  /** The server's points once the first k wanted ones have been added. */
  function Upto(before: seq<Stored>, all: seq<Stored>, k: nat): seq<Stored>
    requires k <= |all|
  {
    before + all[..k]
  }

  /** The server's points after the last request for a chunk. */
  function Taken(points: seq<Stored>, ids: seq<u64>, rows: seq<seq<u32>>, payloads: bool, upsert: bool, r: Reply): seq<Stored>
    requires |ids| == |rows|
  {
    Accept(points, r, Some(JsonMeaning(JsonBulk(ids, rows, payloads, upsert))))
  }

  /** The server reads a chunk of the load as the rows it was cut from, which follow the rows
      before them. */
  lemma ChunkTaken(before: seq<Stored>, ids: seq<u64>, rows: seq<seq<u32>>, dim: nat,
                   payloads: bool, upsert: bool, lo: nat, hi: nat, r: Reply)
    requires Rectangular(ids, rows, dim) && lo <= hi <= |ids| && hi - lo <= INSERT_BATCH
    ensures IsChunk(ids[lo..hi], rows[lo..hi], dim)
    ensures var all := Wanted(ids, rows, payloads, upsert);
            Taken(Upto(before, all, lo), ids[lo..hi], rows[lo..hi], payloads, upsert, r)
              == Upto(before, all, if AppliedBy(r) then hi else lo)
  {
    var all := Wanted(ids, rows, payloads, upsert);
    assert StoredOf(JsonMeaning(JsonBulk(ids[lo..hi], rows[lo..hi], payloads, upsert))) == all[lo..hi];
    assert all[..lo] + all[lo..hi] == all[..hi];
  }

  /** What the caller may conclude from a load's return value. */
  predicate Delivered(count: nat, failure: Option<Failure>, before: seq<Stored>, all: seq<Stored>, after: seq<Stored>) {
    match failure
    case None => count == |all| && after == before + all
    case Some(RuntimeError) => count < |all| && after == before + all[..count]
    case Some(OtherException) => count == 0 && exists m :: 0 <= m <= |all| && after == before + all[..m]
  }

  lemma DeliveredSome(before: seq<Stored>, all: seq<Stored>, m: nat, after: seq<Stored>)
    requires m <= |all| && after == Upto(before, all, m)
    ensures Delivered(0, Some(OtherException), before, all, after)
    ensures m < |all| ==> Delivered(m, Some(RuntimeError), before, all, after)
    ensures m == |all| ==> Delivered(m, None, before, all, after)
  {
    assert m == |all| ==> all[..m] == all;
  }

  function Times(n: nat, q: Option<Query>): (s: seq<Option<Query>>)
    ensures |s| == n && forall i :: 0 <= i < n ==> s[i] == q
  {
    if n == 0 then [] else Times(n - 1, q) + [q]
  }

  lemma TimesTwo(before: seq<Option<Query>>, q: Option<Query>)
    ensures before + Times(0, q) == before
    ensures before + Times(1, q) == before + [q]
    ensures before + Times(2, q) == before + [q] + [q]
  {
  }

  /** A call of insert_embeddings: its arguments, and the state it found. */
  datatype Job = Job(ids: seq<u64>, rows: seq<seq<u32>>, dim: nat, path: LoadPath,
                     flags: Flags, replies: nat -> Reply, t: nat, before: seq<Stored>)
  {
    predicate Valid() {
      Rectangular(ids, rows, dim)
    }

    function Payloads(): bool {
      path != BulkPath
    }

    function Inline(): bool {
      path == BatchPath
    }

    function Run(): LoadRun {
      Load(flags, 0, |ids|, replies, t)
    }

    function All(): (all: seq<Stored>)
      requires Valid()
      ensures |all| == |ids|
    {
      Wanted(ids, rows, Payloads(), Inline())
    }

    /** Rows before `start` are in, and the rest of the load goes on from there. */
    predicate At(f: Flags, start: nat, now: nat, points: seq<Stored>)
      requires Valid()
    {
      start <= |ids| && Continues(Run(), t, f, start, |ids|, replies, now) && points == Upto(before, All(), start)
    }

    /** The load is over as promised. */
    predicate Done(f: Flags, now: nat, points: seq<Stored>, count: nat, failure: Option<Failure>)
      requires Valid()
    {
      && f == Run().flags && now == t + |Run().sent|
      && (count, failure) == Returned(Run().end, |ids|)
      && Delivered(count, failure, before, All(), points)
    }

    /** What a load does to the client as a whole. */
    lemma Keeps(c: Client)
      requires Sound(c) && c.insert == flags
      ensures After(c, Insert(|ids|, replies, t)) == c.(insert := Run().flags)
      ensures Sound(c.(insert := Run().flags))
    {
      EventKeeps(c, Insert(|ids|, replies, t));
    }

    lemma Begins()
      requires Valid()
      ensures At(flags, 0, t, before)
    {
      assert Upto(before, All(), 0) == before;
    }

    lemma Finishes(f: Flags, now: nat, points: seq<Stored>)
      requires Valid() && At(f, |ids|, now, points)
      ensures Done(f, now, points, |ids|, None)
    {
      LoadEnds(Run(), t, f, |ids|, replies, now);
      DeliveredSome(before, All(), |ids|, points);
    }

    lemma Steps(f: Flags, start: nat, now: nat, points: seq<Stored>)
      requires Valid() && start < |ids| && At(f, start, now, points)
      ensures var (g, used, r) := Chunk(f, replies, now);
              var end := ChunkEnd(start, |ids|);
              var a, b := ids[start..end], rows[start..end];
              && IsChunk(a, b, dim)
              && var after := Taken(points, a, b, Payloads(), Inline(), r);
                 if r == Status(200) then At(g, end, now + used, after)
                 else Done(g, now + used, after, if r.Raised? then 0 else start,
                           Some(if r.Raised? then OtherException else RuntimeError))
    {
      var (g, used, r) := Chunk(f, replies, now);
      var end := ChunkEnd(start, |ids|);
      StepLoad(Run(), t, f, start, |ids|, replies, now);
      ChunkTaken(before, ids, rows, dim, Payloads(), Inline(), start, end, r);
      if r != Status(200) {
        DeliveredSome(before, All(), if AppliedBy(r) then end else start, Upto(before, All(), if AppliedBy(r) then end else start));
      }
    }
  }

  /** The binary body of a chunk means what its JSON body means. */
  method BuildChunkBody(ids: seq<u64>, rows: seq<seq<u32>>, dim: nat, upsert: bool, payloads: bool)
    returns (body: seq<byte>)
    requires IsChunk(ids, rows, dim)
    ensures DecodeBulk(body) == Some(JsonMeaning(JsonBulk(ids, rows, payloads, upsert)))
  {
    body := BuildBinaryBody(ids, rows, dim, upsert, payloads);
    WiresAgree(ids, rows, dim, upsert, payloads);
  }

  /** _query_body sees only the blob; what it encodes is the filter. */
  method BuildQueryBody(query: seq<u32>, k: u32, ghost filter: Option<Json>, blob: seq<byte>)
    returns (body: seq<byte>)
    requires |query| < TWO_32 && |blob| < TWO_32 && blob == BlobOf(filter)
    ensures DecodeQuery(body) == Some(Query(query, k, filter))
  {
    QueryReadsBack(query, k, filter);
    body := QueryBody(query, k, blob);
  }

  lemma SearchReturns(f: Flags, fits: bool, replies: nat -> SearchReply, t: nat)
    ensures var run := Search(f, fits, replies, t);
            && (run.wires == [] <==> f.on && !fits) && (run.wires == [] ==> run.end == Failed)
            && |run.wires| <= 2
            && (|run.wires| == 2 <==> f.on && fits && !f.proven && Rejects(replies(t)))
            && (run.wires != [] ==>
                  forall ids :: run.end == Hits(ids) <==> Delivers(replies(t + |run.wires| - 1), ids))
  {
    var run := Search(f, fits, replies, t);
    SearchMeans(f, fits, replies, t, []);
    if run.wires != [] {
      forall ids ensures run.end == Hits(ids) <==> Delivers(replies(t + |run.wires| - 1), ids) {
        SearchMeans(f, fits, replies, t, ids);
      }
    }
  }

  lemma SearchKeeps(c: Client, fits: bool, replies: nat -> SearchReply, t: nat)
    requires Sound(c)
    ensures After(c, Ask(fits, replies, t)) == c.(query := Search(c.query, fits, replies, t).flags)
    ensures Sound(c.(query := Search(c.query, fits, replies, t).flags))
  {
    EventKeeps(c, Ask(fits, replies, t));
  }

  class Rostam {
    const loadPath: LoadPath
    const server: HttpServer
    var binary: bool
    var binaryProven: bool
    var binaryQuery: bool
    var binaryQueryProven: bool
    var queryFilter: Option<Json>
    var filterBlob: seq<byte>

    function InsertFlags(): Flags
      reads this
    {
      Flags(binary, binaryProven)
    }

    function State(): Client
      reads this
    {
      Client(loadPath, InsertFlags(), Flags(binaryQuery, binaryQueryProven), queryFilter, filterBlob)
    }

    predicate Valid()
      reads this
    {
      Sound(State())
    }

    constructor (path: LoadPath, s: HttpServer, binaryWire: bool, binaryQueryWire: bool)
      ensures server == s && Valid()
      ensures State() == Client(path, Flags(binaryWire, false), Flags(binaryQueryWire, false), None, [])
    {
      loadPath, server := path, s;
      binary, binaryProven := binaryWire, false;
      binaryQuery, binaryQueryProven := binaryQueryWire, false;
      queryFilter, filterBlob := None, [];
    }

    function Payloads(): bool {
      loadPath != BulkPath
    }

    function Inline(): bool {
      loadPath == BatchPath
    }

    /** The loop body of a load: the binary request, and the JSON one in its place or after it. */
    method SendChunk(ids: seq<u64>, rows: seq<seq<u32>>, dim: nat) returns (r: Reply)
      requires IsChunk(ids, rows, dim)
      modifies this`binary, this`binaryProven, server`inserts, server`points
      ensures var now := old(server.inserts);
              (InsertFlags(), server.inserts - now, r) == Chunk(old(InsertFlags()), server.replies, now)
      ensures server.points == Taken(old(server.points), ids, rows, Payloads(), Inline(), r)
    {
      if binary {
        var body := BuildChunkBody(ids, rows, dim, Inline(), Payloads());
        r := server.PostBinary(body);
        if r.Status? && Unsupported(r.code) && !binaryProven {
          binary := false;
        } else {
          if r == Status(200) {
            binaryProven := true;
          }
          return;
        }
      }
      r := server.PostJson(JsonBulk(ids, rows, Payloads(), Inline()));
    }

    /** Success means every row was applied once, in order, with its own id, vector and payload; a
        status error at c means rows before c were; after an exception, the reported 0 never
        overstates what was. The client then is as the event says. */
    method InsertEmbeddings(rows: seq<seq<u32>>, metadata: seq<u64>, dim: nat)
      returns (count: nat, failure: Option<Failure>)
      requires Valid() && Rectangular(metadata, rows, dim)
      modifies this`binary, this`binaryProven, server`inserts, server`points
      ensures Valid() && State() == After(old(State()), Insert(|metadata|, server.replies, old(server.inserts)))
      ensures Job(metadata, rows, dim, loadPath, old(InsertFlags()), server.replies,
                  old(server.inserts), old(server.points))
              .Done(InsertFlags(), server.inserts, server.points, count, failure)
      ensures failure == None ==> count == |metadata| && Gained(old(server.points), metadata, rows, |metadata|)
      ensures failure == Some(RuntimeError) ==> count < |metadata| && Gained(old(server.points), metadata, rows, count)
      ensures failure == Some(OtherException) ==>
                count == 0 && exists m :: 0 <= m <= |metadata| && Gained(old(server.points), metadata, rows, m)
    {
      var n := |metadata|;
      ghost var job := Job(metadata, rows, dim, loadPath, InsertFlags(), server.replies, server.inserts, server.points);
      job.Keeps(State());
      job.Begins();
      var start := 0;
      while start < n
        invariant start <= n && job.At(InsertFlags(), start, server.inserts, server.points)
      {
        var r := SendRows(metadata, rows, dim, start, job);
        if r.Raised? {
          Gains(job, 0, Some(OtherException));
          return 0, Some(OtherException);
        }
        if r != Status(200) {
          Gains(job, start, Some(RuntimeError));
          return start, Some(RuntimeError);
        }
        start := ChunkEnd(start, n);
      }
      job.Finishes(InsertFlags(), server.inserts, server.points);
      Gains(job, n, None);
      return n, None;
    }

    /** Since `before`, the server has gained the first m rows, each once and in order, with its own id
        and vector, its id as payload unless the path is "bulk", and by upsert on "batch" only. */
    ghost predicate Gained(before: seq<Stored>, ids: seq<u64>, rows: seq<seq<u32>>, m: nat)
      reads server
      requires |ids| == |rows|
    {
      && m <= |ids| && |server.points| == |before| + m && server.points[..|before|] == before
      && forall i :: 0 <= i < m ==>
           server.points[|before| + i] ==
             Stored(Point(ids[i], rows[i], if loadPath == BulkPath then None else Some(PayloadOf(ids[i]))),
                    loadPath == BatchPath)
    }

    lemma Gains(job: Job, count: nat, failure: Option<Failure>)
      requires job.Valid() && job.path == loadPath
      requires Delivered(count, failure, job.before, job.All(), server.points)
      ensures failure == None ==> Gained(job.before, job.ids, job.rows, |job.ids|) && count == |job.ids|
      ensures failure == Some(RuntimeError) ==> Gained(job.before, job.ids, job.rows, count) && count < |job.ids|
      ensures failure == Some(OtherException) ==>
                count == 0 && exists m :: 0 <= m <= |job.ids| && Gained(job.before, job.ids, job.rows, m)
    {
      forall m | 0 <= m <= |job.ids| && server.points == job.before + job.All()[..m]
        ensures Gained(job.before, job.ids, job.rows, m)
      {
      }
      assert job.All() == job.All()[..|job.ids|];
    }

    /** One turn of the loop: the rows from start on that fit a chunk. */
    method SendRows(metadata: seq<u64>, rows: seq<seq<u32>>, dim: nat, start: nat, ghost job: Job) returns (r: Reply)
      requires Rectangular(metadata, rows, dim) && start < |metadata|
      requires job.ids == metadata && job.rows == rows && job.dim == dim && job.path == loadPath
      requires job.replies == server.replies && job.At(InsertFlags(), start, server.inserts, server.points)
      modifies this`binary, this`binaryProven, server`inserts, server`points
      ensures r == Status(200) ==>
                job.At(InsertFlags(), ChunkEnd(start, |metadata|), server.inserts, server.points)
      ensures r != Status(200) ==>
                job.Done(InsertFlags(), server.inserts, server.points, if r.Raised? then 0 else start,
                         Some(if r.Raised? then OtherException else RuntimeError))
    {
      var n := |metadata|;
      var end := if start + INSERT_BATCH < n then start + INSERT_BATCH else n;
      job.Steps(InsertFlags(), start, server.inserts, server.points);
      var ids, chunk := metadata[start..end], rows[start..end];
      r := SendChunk(ids, chunk, dim);
    }

    /** A filter that cannot be honoured raises and changes nothing. */
    method PrepareFilter(filter: Filter) returns (raised: bool)
      requires Valid()
      modifies this`queryFilter, this`filterBlob
      ensures Valid() && State() == After(old(State()), Prepare(filter))
      ensures raised <==> filter.OtherFilter? || (filter.NumGE? && loadPath == BulkPath)
      ensures raised ==> queryFilter == old(queryFilter) && filterBlob == old(filterBlob)
      ensures !raised ==> queryFilter == match filter
                                         case NumGE(field, value) => Some(FilterJson(field, value))
                                         case _ => None
    {
      match filter {
        case NonFilter =>
          queryFilter := None;
          filterBlob := [];
          return false;
        case NumGE(field, value) =>
          if loadPath == BulkPath {
            return true;
          }
          queryFilter := Some(FilterJson(field, value));
          filterBlob := Print(DEFAULT, FilterJson(field, value));
          return false;
        case OtherFilter =>
          return true;
      }
    }

    predicate Fits(query: seq<u32>, k: int)
      reads this
    {
      |query| < TWO_32 && 0 <= k < TWO_32 && |filterBlob| < TWO_32
    }

    /** The binary body cannot hold a request only if a length or k does not fit 32 bits. */
    lemma FitsMeans(query: seq<u32>, k: int)
      ensures Fits(query, k) <==>
                |query| < 0x1_0000_0000 && 0 <= k < 0x1_0000_0000 && |filterBlob| < 0x1_0000_0000
    {
    }

    /** What a search returns: nothing if it could make no request, and otherwise the ids of the last
        reply, unless there was none, its status was an error, or its body held no ids. */
    ghost predicate Returns(result: SearchEnd, from: nat, unfit: bool)
      reads this, server
    {
      if server.searches <= from then server.searches == from && unfit && result == Failed
      else
        !unfit && var last := server.answers(server.searches - 1);
        forall ids :: result == Hits(ids) <==> last.Answer? && !(400 <= last.code < 600) && last.hits == Some(ids)
    }

    /** Whatever the wire, every request of a search asks the server for the caller's query and k
        under the filter in force. */
    method SearchEmbedding(query: seq<u32>, k: int) returns (result: SearchEnd)
      requires Valid()
      modifies this`binaryQuery, this`binaryQueryProven, server`searches, server`queries
      ensures Valid()
      ensures State() == After(old(State()), Ask(old(Fits(query, k)), server.answers, old(server.searches)))
      ensures var run := Search(old(State()).query, old(Fits(query, k)), server.answers, old(server.searches));
              && result == run.end
              && server.searches == old(server.searches) + |run.wires|
              && server.queries == old(server.queries) + Times(|run.wires|, Some(Query(query, k, queryFilter)))
      ensures Returns(result, old(server.searches), old(binaryQuery) && !old(Fits(query, k)))
      ensures server.searches == old(server.searches) + 2 <==>
              var first := server.answers(old(server.searches));
              && old(binaryQuery) && !old(binaryQueryProven) && old(Fits(query, k))
              && first.Answer? && first.code in [400, 404, 415]
    {
      SearchReturns(State().query, Fits(query, k), server.answers, server.searches);
      TimesTwo(server.queries, Some(Query(query, k, queryFilter)));
      SearchKeeps(State(), Fits(query, k), server.answers, server.searches);
      if binaryQuery {
        if !Fits(query, k) {
          return Failed;
        }
        var over := AskOnBinary(query, k);
        if over.Some? {
          return over.value;
        }
      }
      var r := server.AskJson(query, k, queryFilter);
      return Read(r);
    }

    /** The binary request of a search, over unless the server does not know the wire. */
    method AskOnBinary(query: seq<u32>, k: int) returns (over: Option<SearchEnd>)
      requires Valid() && binaryQuery && Fits(query, k)
      modifies this`binaryQuery, this`binaryQueryProven, server`searches, server`queries
      ensures server.searches == old(server.searches) + 1
      ensures server.queries == old(server.queries) + [Some(Query(query, k, queryFilter))]
      ensures var r := server.answers(old(server.searches));
              if r.Answer? && Unsupported(r.code) && !old(binaryQueryProven) then
                over == None && !binaryQuery && binaryQueryProven == old(binaryQueryProven)
              else if r.NoAnswer? || Refused(r.code) then
                over == Some(Failed) && binaryQuery && binaryQueryProven == old(binaryQueryProven)
              else over == Some(Read(r)) && binaryQuery && binaryQueryProven
    {
      var body := BuildQueryBody(query, k, queryFilter, filterBlob);
      var r := server.AskBinary(body);
      if r.NoAnswer? {
        return Some(Failed);
      }
      if Unsupported(r.code) && !binaryQueryProven {
        binaryQuery := false;
        return None;
      }
      if Refused(r.code) {
        return Some(Failed);
      }
      binaryQueryProven := true;
      return Some(Read(r));
    }
  }
}
