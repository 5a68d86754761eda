/** The four ops of netkv/rostam_server/main.go byte by byte: for every argument string, every cache
    and every failure of it, what each returns and leaves behind, in terms of the bytes alone. */
module HandlerMeaning {
  import opened Bytes
  import opened DispatcherModel
  import opened HandlerSpec

  /** Where the payload begins: after the two length bytes, high one first, and the key. */
  function Off(args: seq<byte>): nat
    requires |args| >= 2
  {
    2 + (256 * args[0] as int + args[1])
  }

  lemma TwoBytes(s: seq<byte>)
    requires |s| == 2
    ensures FromBigEndian(s) == 256 * s[0] as int + s[1]
  {
    assert s[..1] == [s[0]];
    assert [s[0]][..0] == [];
    assert FromBigEndian([s[0]]) == s[0];
  }

  lemma OffIs(args: seq<byte>)
    requires |args| >= 2
    ensures 2 + FromBigEndian(args[..2]) == Off(args)
  {
    TwoBytes(args[..2]);
  }

  /** The int64 at a place. */
  function I64At(s: seq<byte>, i: nat): i64
    requires i + 8 <= |s|
  {
    ToI64(GetU64(s[i..i + 8]))
  }

  lemma PayloadWords(args: seq<byte>)
    requires |args| >= 2 && |args| >= Off(args) + 16
    ensures StdKey(args) == Some(args[2..Off(args)]) && |Payload(args)| >= 16
    ensures FirstI64(Payload(args)) == I64At(args, Off(args))
    ensures SecondI64(Payload(args)) == I64At(args, Off(args) + 8)
  {
    OffIs(args);
    var off := Off(args);
    assert args[off..][..8] == args[off..off + 8];
    assert args[off..][8..16] == args[off + 8..off + 16];
  }

  /** Arguments too short for their key, or for the op's payload, are refused, and so is a request
      whose key cannot be read. */
  lemma Refused(name: OpName, args: seq<byte>, fails: nat -> bool, m: Cache)
    requires || |args| < 2
             || |args| < Off(args) + (if name.Aru? || name.Casw? then 16 else 0)
             || fails(0)
    ensures Outcome(name, args, fails, m) == (Error, m)
  {
    if |args| >= 2 {
      OffIs(args);
    }
  }

  lemma HasKey(name: OpName, args: seq<byte>)
    requires |args| >= 2 && |args| >= Off(args) + (if name.Aru? || name.Casw? then 16 else 0)
    ensures HandlerKey(name, args) == StdKey(args) == Some(args[2..Off(args)])
    ensures Payload(args) == args[Off(args)..]
  {
    OffIs(args);
  }

  /** aru: one more game, the greater streak, the sum of points, each a wrapped big-endian int64; a
      missing or short record counts as zeros, and the new record is returned. */
  lemma AruMeans(args: seq<byte>, fails: nat -> bool, m: Cache)
    requires |args| >= 2 && |args| >= Off(args) + 16 && !fails(0)
    ensures var key := args[2..Off(args)];
            var full := key in m && |m[key]| >= 24;
            var games, best, score: i64 :=
              if full then I64At(m[key], 0) else 0, if full then I64At(m[key], 8) else 0, if full then I64At(m[key], 16) else 0;
            var streak, points := I64At(args, Off(args)), I64At(args, Off(args) + 8);
            var out := PutU64(ToU64(Wrap(games as int + 1)))
                     + PutU64(ToU64(if streak > best then streak else best))
                     + PutU64(ToU64(Wrap(score as int + points as int)));
            Outcome(Aru, args, fails, m) == if fails(1) then (Error, m) else (Ok(out), m[key := out])
  {
    HasKey(Aru, args);
    PayloadWords(args);
  }

  /** casw: exactly if the counter, a missing or short one counting as 0, is the expected one, the new
      value is written and the answer is 1; otherwise the answer is 0 and nothing changes. */
  lemma CaswMeans(args: seq<byte>, fails: nat -> bool, m: Cache)
    requires |args| >= 2 && |args| >= Off(args) + 16 && !fails(0)
    ensures var key := args[2..Off(args)];
            var cur: i64 := if key in m && |m[key]| >= 8 then I64At(m[key], 0) else 0;
            Outcome(Casw, args, fails, m) ==
              if cur != I64At(args, Off(args)) then (Ok([0]), m)
              else if fails(1) then (Error, m)
              else (Ok([1]), m[key := PutU64(ToU64(I64At(args, Off(args) + 8)))])
  {
    HasKey(Casw, args);
    PayloadWords(args);
  }

  /** app: the value, a missing one counting as empty, grows by all that follows the key. */
  lemma AppMeans(args: seq<byte>, fails: nat -> bool, m: Cache)
    requires |args| >= 2 && |args| >= Off(args) && !fails(0)
    ensures var key := args[2..Off(args)];
            var out := (if key in m then m[key] else []) + args[Off(args)..];
            Outcome(App, args, fails, m) == if fails(1) then (Error, m) else (Ok([]), m[key := out])
  {
    HasKey(App, args);
  }

  /** shft: v becomes v<<1 | 1 in 64 bits, a missing or short counter counting as 0; whatever follows
      the key is ignored. */
  lemma ShftMeans(args: seq<byte>, fails: nat -> bool, m: Cache)
    requires |args| >= 2 && |args| >= Off(args) && !fails(0)
    ensures var key := args[2..Off(args)];
            var v: int := if key in m && |m[key]| >= 8 then GetU64(m[key][0..8]) else 0;
            var out := PutU64((2 * v + 1) % 0x1_0000_0000_0000_0000);
            Outcome(Shft, args, fails, m) == if fails(1) then (Error, m) else (Ok([]), m[key := out])
  {
    HasKey(Shft, args);
  }

  /** The route: the mutex of the key's shard whenever the arguments are long enough for their key, and
      all mutexes only otherwise. */
  lemma RouteMeans(shardOf: Key -> nat, name: OpName, args: seq<byte>, fails: nat -> bool)
    ensures HandlerOp(shardOf, name, args, fails).route ==
              if |args| >= 2 && |args| >= Off(args) then Shard(shardOf(args[2..Off(args)])) else Barrier
  {
    if |args| >= 2 {
      OffIs(args);
    }
  }

  // ---------- what the benchmark's own requests do ----------

  const NEVER: nat -> bool := (n: nat) => false

  /** The client's arguments: two length bytes, high one first, the key, and the rest. */
  lemma ClientArgs(key: Key, tail: seq<byte>)
    requires |key| < 0x1_0000
    ensures var args := EncodeKeyArgs(key) + tail;
            && |args| == 2 + |key| + |tail| && Off(args) == 2 + |key|
            && args[2..Off(args)] == key && args[Off(args)..] == tail
  {
    var args := EncodeKeyArgs(key) + tail;
    KeyArgsReadBack(key, tail);
    Pow256Values();
    BigEndianReadsBack(2, |key|);
    assert args[..2] == BigEndian(2, |key|);
    OffIs(args);
    assert args[2..2 + |key|] == key;
  }

  /** A bitmask request has nothing after the key. Its first write of a key leaves a 1, every other
      one shifts in a 1 bit; it never fails on its own. */
  lemma ClientShift(key: Key, m: Cache)
    requires |key| < 0x1_0000
    ensures HandlerKey(Shft, EncodeKeyArgs(key)) == Some(key)
    ensures key !in m ==> Outcome(Shft, EncodeKeyArgs(key), NEVER, m) == (Ok([]), m[key := PutU64(1)])
    ensures key in m && |m[key]| >= 8 ==>
              Outcome(Shft, EncodeKeyArgs(key), NEVER, m) ==
                (Ok([]), m[key := PutU64((2 * GetU64(m[key][0..8]) as int + 1) % 0x1_0000_0000_0000_0000)])
  {
    var args := EncodeKeyArgs(key);
    ClientArgs(key, []);
    assert args + [] == args;
    HasKey(Shft, args);
    ShftMeans(args, NEVER, m);
  }

  /** An append request of a key not there leaves the suffix, of one there adds it. */
  lemma ClientAppend(key: Key, suffix: seq<byte>, m: Cache)
    requires |key| < 0x1_0000
    ensures Outcome(App, EncodeKeyArgs(key) + suffix, NEVER, m) ==
              (Ok([]), m[key := (if key in m then m[key] else []) + suffix])
  {
    ClientArgs(key, suffix);
    AppMeans(EncodeKeyArgs(key) + suffix, NEVER, m);
  }

  lemma ClientPair(key: Key, a: i64, b: i64)
    requires |key| < 0x1_0000
    ensures var args := EncodePairArgs(key, a, b);
            && |args| == 18 + |key| && Off(args) == 2 + |key| && args[2..Off(args)] == key
            && I64At(args, Off(args)) == a && I64At(args, Off(args) + 8) == b
  {
    var args := EncodePairArgs(key, a, b);
    ClientArgs(key, PutU64(ToU64(a)) + PutU64(ToU64(b)));
    assert args[Off(args)..Off(args) + 8] == PutU64(ToU64(a));
    assert args[Off(args) + 8..Off(args) + 16] == PutU64(ToU64(b));
    I64Words(a);
    I64Words(b);
  }

  /** A conditional write of a key not there succeeds exactly if 0 is expected. */
  lemma ClientCaswFresh(key: Key, expected: i64, next: i64, m: Cache)
    requires |key| < 0x1_0000 && key !in m
    ensures Outcome(Casw, EncodePairArgs(key, expected, next), NEVER, m) ==
              if expected == 0 then (Ok([1]), m[key := PutU64(ToU64(next))]) else (Ok([0]), m)
  {
    ClientPair(key, expected, next);
    CaswMeans(EncodePairArgs(key, expected, next), NEVER, m);
  }

  /** The first match of a key: one game, the streak if it is positive, and the points. */
  lemma ClientAruFresh(key: Key, streak: i64, points: i64, m: Cache)
    requires |key| < 0x1_0000 && key !in m
    ensures var out := PutU64(1) + PutU64(ToU64(if streak > 0 then streak else 0)) + PutU64(ToU64(points));
            Outcome(Aru, EncodePairArgs(key, streak, points), NEVER, m) == (Ok(out), m[key := out])
  {
    ClientPair(key, streak, points);
    AruMeans(EncodePairArgs(key, streak, points), NEVER, m);
  }
}
