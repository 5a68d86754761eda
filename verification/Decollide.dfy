/** decollide of netkv/charts/mkcharts.py over exact reals: two in-place passes over the labels in
    sorted order, then one shift into the plot. */
module Decollide {
  import opened Bytes

  // ---------- sorted(range(len(ys)), key=...) ----------

  /** i comes before j: a smaller label, or an equal one given earlier. */
  predicate Before(ys: seq<real>, i: nat, j: nat)
    requires i < |ys| && j < |ys|
  {
    ys[i] < ys[j] || (ys[i] == ys[j] && i < j)
  }

  predicate Within(ys: seq<real>, order: seq<nat>) {
    forall a :: 0 <= a < |order| ==> order[a] < |ys|
  }

  ghost predicate Sorted(ys: seq<real>, order: seq<nat>)
    requires Within(ys, order)
  {
    forall a, b :: 0 <= a < b < |order| ==> Before(ys, order[a], order[b])
  }

  function Insert(ys: seq<real>, order: seq<nat>, i: nat): (r: seq<nat>)
    requires Within(ys, order) && i < |ys|
    ensures Within(ys, r) && |r| == |order| + 1
  {
    var n := |order| - 1;
    if order == [] || ys[order[n]] <= ys[i] then order + [i]
    else Insert(ys, order[..n], i) + [order[n]]
  }

  lemma {:induction false} InsertHolds(ys: seq<real>, order: seq<nat>, i: nat, x: nat)
    requires Within(ys, order) && i < |ys|
    ensures x in Insert(ys, order, i) <==> x in order || x == i
  {
    var n := |order| - 1;
    if order != [] {
      assert order == order[..n] + [order[n]];
      if ys[order[n]] > ys[i] {
        InsertHolds(ys, order[..n], i, x);
      }
    }
  }

  function Order(ys: seq<real>, n: nat): (order: seq<nat>)
    requires n <= |ys|
    ensures Within(ys, order) && |order| == n
  {
    if n == 0 then [] else Insert(ys, Order(ys, n - 1), n - 1)
  }

  /** The order holds every index below n. */
  lemma {:induction false} OrderHolds(ys: seq<real>, n: nat, x: nat)
    requires n <= |ys|
    ensures x in Order(ys, n) <==> x < n
  {
    if n > 0 {
      OrderHolds(ys, n - 1, x);
      InsertHolds(ys, Order(ys, n - 1), n - 1, x);
    }
  }

  lemma {:induction false} InsertSorted(ys: seq<real>, order: seq<nat>, i: nat)
    requires Within(ys, order) && Sorted(ys, order) && i < |ys|
    requires forall x: nat :: x in order ==> x < i
    ensures Sorted(ys, Insert(ys, order, i))
  {
    var n := |order| - 1;
    if order != [] {
      assert order == order[..n] + [order[n]];
      if ys[order[n]] <= ys[i] {
        forall a | 0 <= a <= n
          ensures Before(ys, order[a], i)
        {
          assert order[a] in order;
          assert a < n ==> Before(ys, order[a], order[n]);
        }
        PushSorted(ys, order, i);
      } else {
        forall x: nat | x in order[..n]
          ensures x < i
        {
          assert x in order;
        }
        InsertSorted(ys, order[..n], i);
        var rest := Insert(ys, order[..n], i);
        forall a | 0 <= a < |rest|
          ensures Before(ys, rest[a], order[n])
        {
          InsertHolds(ys, order[..n], i, rest[a]);
          BeforeLast(ys, order, i, rest[a]);
        }
        PushSorted(ys, rest, order[n]);
      }
    }
  }

  lemma BeforeLast(ys: seq<real>, order: seq<nat>, i: nat, x: nat)
    requires Within(ys, order) && Sorted(ys, order) && order != [] && i < |ys|
    requires ys[order[|order| - 1]] > ys[i]
    requires x in order[..|order| - 1] || x == i
    ensures x < |ys| && Before(ys, x, order[|order| - 1])
  {
    if x != i {
      var b :| 0 <= b < |order| - 1 && order[b] == x;
    }
  }

  lemma PushSorted(ys: seq<real>, order: seq<nat>, last: nat)
    requires Within(ys, order) && Sorted(ys, order) && last < |ys|
    requires forall a :: 0 <= a < |order| ==> Before(ys, order[a], last)
    ensures Sorted(ys, order + [last])
  {
  }

  lemma {:induction false} OrderSorted(ys: seq<real>, n: nat)
    requires n <= |ys|
    ensures Sorted(ys, Order(ys, n))
  {
    if n > 0 {
      OrderSorted(ys, n - 1);
      var prior := Order(ys, n - 1);
      forall x: nat | x in prior
        ensures x < n - 1
      {
        OrderHolds(ys, n - 1, x);
      }
      InsertSorted(ys, prior, n - 1);
    }
  }

  /** The labels in sorted order. */
  function Along(ys: seq<real>, order: seq<nat>): (zs: seq<real>)
    requires Within(ys, order)
    ensures |zs| == |order| && forall k :: 0 <= k < |zs| ==> zs[k] == ys[order[k]]
  {
    seq(|order|, k requires 0 <= k < |order| => ys[order[k]])
  }

  function Lined(ys: seq<real>): (zs: seq<real>)
    ensures |zs| == |ys|
  {
    Along(ys, Order(ys, |ys|))
  }

  predicate Ascending(zs: seq<real>) {
    forall a, b :: 0 <= a < b < |zs| ==> zs[a] <= zs[b]
  }

  lemma LinedAscends(ys: seq<real>)
    ensures Ascending(Lined(ys))
  {
    var order := Order(ys, |ys|);
    OrderSorted(ys, |ys|);
    forall a, b | 0 <= a < b < |ys|
      ensures Lined(ys)[a] <= Lined(ys)[b]
    {
      assert Before(ys, order[a], order[b]);
    }
  }

  // ---------- the two passes ----------

  function Max(a: real, b: real): real {
    if a >= b then a else b
  }

  function Min(a: real, b: real): real {
    if a <= b then a else b
  }

  /** The k-th label after pushing each away from the one before it. */
  function Up(zs: seq<real>, gap: real, k: nat): real
    requires k < |zs|
  {
    if k == 0 then zs[0] else Max(zs[k], Up(zs, gap, k - 1) + gap)
  }

  /** The k-th label after pulling each back from the one after it. */
  function Down(zs: seq<real>, gap: real, k: nat): real
    requires k < |zs|
    decreases |zs| - k
  {
    if k == |zs| - 1 then zs[k] else Min(zs[k], Down(zs, gap, k + 1) - gap)
  }

  predicate Spaced(zs: seq<real>, gap: real) {
    forall k :: 0 < k < |zs| ==> zs[k] - zs[k - 1] >= gap
  }

  function Times(k: int, gap: real): real {
    (k as real) * gap
  }

  /** The first pass gives max over j <= k of z_j + (k - j) * gap. */
  lemma {:induction false} UpIsMax(zs: seq<real>, gap: real, k: nat)
    requires k < |zs|
    ensures forall j :: 0 <= j <= k ==> Up(zs, gap, k) >= zs[j] + Times(k - j, gap)
    ensures exists j :: 0 <= j <= k && Up(zs, gap, k) == zs[j] + Times(k - j, gap)
  {
    if k == 0 {
      assert Up(zs, gap, k) == zs[0] + Times(0, gap);
    } else {
      UpIsMax(zs, gap, k - 1);
      forall j | 0 <= j <= k
        ensures Up(zs, gap, k) >= zs[j] + Times(k - j, gap)
      {
        if j < k {
          NextTimes(k - 1 - j, gap);
          assert Up(zs, gap, k - 1) >= zs[j] + Times(k - 1 - j, gap);
        }
      }
      var j :| 0 <= j <= k - 1 && Up(zs, gap, k - 1) == zs[j] + Times(k - 1 - j, gap);
      NextTimes(k - 1 - j, gap);
      if Up(zs, gap, k) == zs[k] {
        assert Up(zs, gap, k) == zs[k] + Times(k - k, gap);
      } else {
        assert Up(zs, gap, k) == zs[j] + Times(k - j, gap);
      }
    }
  }

  lemma NextTimes(n: nat, gap: real)
    ensures Times(n + 1, gap) == Times(n, gap) + gap
  {
    assert (n + 1) as real == n as real + 1.0;
  }

  /** The second pass gives, for any line, min over j >= k of z_j - (j - k) * gap. */
  lemma {:induction false} DownIsMin(zs: seq<real>, gap: real, k: nat)
    requires k < |zs|
    ensures forall j :: k <= j < |zs| ==> Down(zs, gap, k) <= zs[j] - Times(j - k, gap)
    ensures exists j :: k <= j < |zs| && Down(zs, gap, k) == zs[j] - Times(j - k, gap)
    decreases |zs| - k
  {
    if k == |zs| - 1 {
      assert Down(zs, gap, k) == zs[k] - Times(0, gap);
    } else {
      DownIsMin(zs, gap, k + 1);
      forall j | k <= j < |zs|
        ensures Down(zs, gap, k) <= zs[j] - Times(j - k, gap)
      {
        if j > k {
          NextTimes(j - k - 1, gap);
          assert Down(zs, gap, k + 1) <= zs[j] - Times(j - (k + 1), gap);
        }
      }
      var j :| k + 1 <= j < |zs| && Down(zs, gap, k + 1) == zs[j] - Times(j - (k + 1), gap);
      NextTimes(j - k - 1, gap);
      if Down(zs, gap, k) == zs[k] {
        assert Down(zs, gap, k) == zs[k] - Times(k - k, gap);
      } else {
        assert Down(zs, gap, k) == zs[j] - Times(j - k, gap);
      }
    }
  }

  function Ups(zs: seq<real>, gap: real): (us: seq<real>)
    ensures |us| == |zs| && forall k :: 0 <= k < |zs| ==> us[k] == Up(zs, gap, k)
  {
    seq(|zs|, k requires 0 <= k < |zs| => Up(zs, gap, k))
  }

  /** No placement that is spaced and nowhere above its label's input lies below the first pass's:
      it is the least spaced one over the inputs. */
  lemma {:induction false} LeastSpaced(zs: seq<real>, gap: real, ws: seq<real>, k: nat)
    requires |ws| == |zs| && k < |zs| && Spaced(ws, gap)
    requires forall i :: 0 <= i < |zs| ==> ws[i] >= zs[i]
    ensures Spaced(Ups(zs, gap), gap) && zs[k] <= Up(zs, gap, k) <= ws[k]
  {
    if k > 0 {
      LeastSpaced(zs, gap, ws, k - 1);
    }
  }

  /** What is spaced already, the second pass leaves alone. */
  lemma {:induction false} DownIdle(zs: seq<real>, gap: real, k: nat)
    requires k < |zs| && Spaced(zs, gap)
    ensures Down(zs, gap, k) == zs[k]
    decreases |zs| - k
  {
    if k < |zs| - 1 {
      DownIdle(zs, gap, k + 1);
    }
  }

  lemma {:induction false} UpIdle(zs: seq<real>, gap: real, k: nat)
    requires k < |zs| && Spaced(zs, gap)
    ensures Up(zs, gap, k) == zs[k]
  {
    if k > 0 {
      UpIdle(zs, gap, k - 1);
    }
  }

  /** The first pass keeps the labels in order, whatever the gap's sign. */
  lemma {:induction false} UpAscends(zs: seq<real>, gap: real, a: nat, b: nat)
    requires Ascending(zs) && a <= b < |zs|
    ensures Up(zs, gap, a) <= Up(zs, gap, b)
    ensures gap < 0.0 ==> Up(zs, gap, b) == zs[b]
  {
    if b > 0 {
      UpAscends(zs, gap, if a < b then a else b - 1, b - 1);
      if gap < 0.0 && a < b {
        UpAscends(zs, gap, a, a);
      }
    }
  }

  // ---------- the loops ----------

  predicate IsOrder(order: seq<nat>, n: nat) {
    && |order| == n
    && (forall a :: 0 <= a < n ==> order[a] < n)
    && (forall a, b :: 0 <= a < b < n ==> order[a] != order[b])
  }

  /** An update at order[k] is one at place k of the line. */
  lemma AlongUpdate(out: seq<real>, order: seq<nat>, k: nat, v: real)
    requires IsOrder(order, |out|) && k < |order|
    ensures Along(out[order[k] := v], order) == Along(out, order)[k := v]
  {
    assert forall a :: 0 <= a < |order| && a != k ==> order[a] != order[k];
  }

  /** The line when the first pass has reached place k. */
  function UpTo(zs: seq<real>, gap: real, k: nat): (us: seq<real>)
    ensures |us| == |zs| && forall a :: 0 <= a < |zs| ==> us[a] == if a < k then Up(zs, gap, a) else zs[a]
  {
    seq(|zs|, a requires 0 <= a < |zs| => if a < k then Up(zs, gap, a) else zs[a])
  }

  lemma UpStep(zs: seq<real>, gap: real, k: nat)
    requires k < |zs|
    ensures var us := UpTo(zs, gap, k);
            UpTo(zs, gap, k + 1) == if k > 0 && us[k] - us[k - 1] < gap then us[k := us[k - 1] + gap] else us
  {
  }

  /** The list after one turn of the first loop, and of the second. */
  function Pushed(out: seq<real>, order: seq<nat>, gap: real, k: nat): seq<real>
    requires IsOrder(order, |out|) && k < |order|
  {
    if k > 0 && out[order[k]] - out[order[k - 1]] < gap then out[order[k] := out[order[k - 1]] + gap] else out
  }

  function Pulled(out: seq<real>, order: seq<nat>, gap: real, k: nat): seq<real>
    requires IsOrder(order, |out|) && k + 1 < |order|
  {
    if out[order[k + 1]] - out[order[k]] < gap then out[order[k] := out[order[k + 1]] - gap] else out
  }

  lemma PushedLine(out: seq<real>, order: seq<nat>, zs: seq<real>, gap: real, k: nat)
    requires IsOrder(order, |out|) && k < |order| == |zs| && Along(out, order) == UpTo(zs, gap, k)
    ensures Along(Pushed(out, order, gap, k), order) == UpTo(zs, gap, k + 1)
  {
    UpStep(zs, gap, k);
    if k > 0 {
      AlongUpdate(out, order, k, out[order[k - 1]] + gap);
    }
  }

  method TopDown(out: array<real>, order: seq<nat>, gap: real)
    requires IsOrder(order, out.Length)
    modifies out
    ensures Along(out[..], order) == Ups(Along(old(out[..]), order), gap)
  {
    ghost var zs := Along(out[..], order);
    assert UpTo(zs, gap, 0) == zs;
    for k := 0 to |order|
      invariant Along(out[..], order) == UpTo(zs, gap, k)
    {
      ghost var was := out[..];
      PushedLine(was, order, zs, gap, k);
      var i := order[k];
      if k > 0 && out[i] - out[order[k - 1]] < gap {
        out[i] := out[order[k - 1]] + gap;
      }
      assert out[..] == Pushed(was, order, gap, k);
    }
    assert UpTo(zs, gap, |zs|) == Ups(zs, gap);
  }

  function Downs(zs: seq<real>, gap: real): (ds: seq<real>)
    ensures |ds| == |zs| && forall k :: 0 <= k < |zs| ==> ds[k] == Down(zs, gap, k)
  {
    seq(|zs|, k requires 0 <= k < |zs| => Down(zs, gap, k))
  }

  /** The line when the second pass has come down past place k. */
  function DownTo(zs: seq<real>, gap: real, k: int): (ds: seq<real>)
    ensures |ds| == |zs| && forall a :: 0 <= a < |zs| ==> ds[a] == if a > k then Down(zs, gap, a) else zs[a]
  {
    seq(|zs|, a requires 0 <= a < |zs| => if a > k then Down(zs, gap, a) else zs[a])
  }

  lemma DownStep(zs: seq<real>, gap: real, k: nat)
    requires k + 1 < |zs|
    ensures var ds := DownTo(zs, gap, k);
            DownTo(zs, gap, k - 1) == if ds[k + 1] - ds[k] < gap then ds[k := ds[k + 1] - gap] else ds
  {
  }

  lemma PulledLine(out: seq<real>, order: seq<nat>, zs: seq<real>, gap: real, k: nat)
    requires IsOrder(order, |out|) && k + 1 < |order| == |zs| && Along(out, order) == DownTo(zs, gap, k)
    ensures Along(Pulled(out, order, gap, k), order) == DownTo(zs, gap, k - 1)
  {
    DownStep(zs, gap, k);
    AlongUpdate(out, order, k, out[order[k + 1]] - gap);
  }

  method BottomUp(out: array<real>, order: seq<nat>, gap: real)
    requires IsOrder(order, out.Length)
    modifies out
    ensures Along(out[..], order) == Downs(Along(old(out[..]), order), gap)
  {
    ghost var zs := Along(out[..], order);
    var k := |order| - 2;
    assert DownTo(zs, gap, k) == zs;
    while k >= 0
      invariant -2 <= k <= |order| - 2 && (k == -2 ==> order == [])
      invariant Along(out[..], order) == DownTo(zs, gap, k)
    {
      ghost var was := out[..];
      PulledLine(was, order, zs, gap, k);
      var i, j := order[k], order[k + 1];
      if out[j] - out[i] < gap {
        out[i] := out[j] - gap;
      }
      assert out[..] == Pulled(was, order, gap, k);
      k := k - 1;
    }
    assert DownTo(zs, gap, k) == Downs(zs, gap);
  }

  function Least(s: seq<real>): (m: real)
    requires s != []
    ensures m in s && forall i :: 0 <= i < |s| ==> m <= s[i]
  {
    if |s| == 1 then s[0] else Min(s[0], Least(s[1..]))
  }

  function Greatest(s: seq<real>): (m: real)
    requires s != []
    ensures m in s && forall i :: 0 <= i < |s| ==> m >= s[i]
  {
    if |s| == 1 then s[0] else Max(s[0], Greatest(s[1..]))
  }

  /** Up into the plot by what the lowest label lacks, down by what the highest exceeds. */
  function Shift(us: seq<real>, lo: real, hi: real): real
    requires us != []
  {
    Max(0.0, lo - us[0]) - Max(0.0, us[|us| - 1] - hi)
  }

  /** Label order[k] sits at the first pass's place, shifted. */
  predicate Labels(ys: seq<real>, gap: real, lo: real, hi: real, r: seq<real>)
    requires ys != []
  {
    && |r| == |ys|
    && var us, order := Ups(Lined(ys), gap), Order(ys, |ys|);
       forall k :: 0 <= k < |ys| ==> r[order[k]] == us[k] + Shift(us, lo, hi)
  }

  /** The ends of the line are the least and the greatest label. */
  lemma Ends(ys: seq<real>, out: seq<real>, us: seq<real>)
    requires |out| == |ys| && ys != [] && Along(out, Order(ys, |ys|)) == us && Ascending(us)
    ensures Least(out) == us[0] && Greatest(out) == us[|us| - 1]
  {
    var order, n := Order(ys, |ys|), |us| - 1;
    assert us[0] == out[order[0]] && us[n] == out[order[n]];
    forall i | 0 <= i < |out|
      ensures us[0] <= out[i] <= us[n]
    {
      var k := PlaceOf(ys, i);
      InLine(us, k);
      assert out[i] == us[k];
    }
    Extremes(out, order[0], order[n]);
  }

  lemma InLine(us: seq<real>, k: nat)
    requires Ascending(us) && k < |us|
    ensures us[0] <= us[k] <= us[|us| - 1]
  {
  }

  lemma Extremes(out: seq<real>, i: nat, j: nat)
    requires i < |out| && j < |out|
    requires forall a :: 0 <= a < |out| ==> out[i] <= out[a] <= out[j]
    ensures Least(out) == out[i] && Greatest(out) == out[j]
  {
  }

  lemma PlaceOf(ys: seq<real>, i: nat) returns (k: nat)
    requires i < |ys|
    ensures k < |ys| && Order(ys, |ys|)[k] == i
  {
    OrderHolds(ys, |ys|, i);
    k :| 0 <= k < |ys| && Order(ys, |ys|)[k] == i;
  }

  lemma OrderIsOrder(ys: seq<real>)
    ensures IsOrder(Order(ys, |ys|), |ys|)
  {
    OrderSorted(ys, |ys|);
    var order := Order(ys, |ys|);
    forall a, b | 0 <= a < b < |ys|
      ensures order[a] != order[b]
    {
      assert Before(ys, order[a], order[b]);
    }
  }

  /** No labels at all is an error: the least of an empty list. */
  method Spread(ys: seq<real>, gap: real, lo: real, hi: real) returns (r: Option<seq<real>>)
    ensures r.None? <==> ys == []
    ensures r.Some? ==> Labels(ys, gap, lo, hi, r.value)
  {
    var order := Order(ys, |ys|);
    OrderIsOrder(ys);
    var out := new real[|ys|];
    for i := 0 to |ys|
      invariant out[..i] == ys[..i]
    {
      out[i] := ys[i];
    }
    assert out[..] == ys;
    ghost var us := Ups(Lined(ys), gap);
    TopDown(out, order, gap);
    BottomUp(out, order, gap);
    if ys == [] {
      return None;
    }
    Settles(ys, gap, out[..]);
    var shift := Max(0.0, lo - Least(out[..])) - Max(0.0, Greatest(out[..]) - hi);
    var all := out[..];
    r := Some(seq(|all|, i requires 0 <= i < |all| => all[i] + shift));
  }

  lemma DownsIdle(us: seq<real>, gap: real)
    requires Spaced(us, gap)
    ensures Downs(us, gap) == us
  {
    forall k | 0 <= k < |us|
      ensures Down(us, gap, k) == us[k]
    {
      DownIdle(us, gap, k);
    }
  }

  lemma UpsSpaced(zs: seq<real>, gap: real)
    ensures Spaced(Ups(zs, gap), gap)
  {
  }

  lemma UpsAscend(zs: seq<real>, gap: real)
    requires Ascending(zs)
    ensures Ascending(Ups(zs, gap))
  {
    forall a, b | 0 <= a < b < |zs|
      ensures Up(zs, gap, a) <= Up(zs, gap, b)
    {
      UpAscends(zs, gap, a, b);
    }
  }

  /** After both passes the labels stand where the first one put them. */
  lemma Settles(ys: seq<real>, gap: real, out: seq<real>)
    requires ys != [] && |out| == |ys|
    requires Along(out, Order(ys, |ys|)) == Downs(Ups(Lined(ys), gap), gap)
    ensures Along(out, Order(ys, |ys|)) == Ups(Lined(ys), gap)
    ensures var us := Ups(Lined(ys), gap); Least(out) == us[0] && Greatest(out) == us[|us| - 1]
  {
    var zs := Lined(ys);
    LinedAscends(ys);
    UpsAscend(zs, gap);
    UpsSpaced(zs, gap);
    DownsIdle(Ups(zs, gap), gap);
    Ends(ys, out, Ups(zs, gap));
  }

  // ---------- what the labels are for ----------

  /** What comes later stands later, by the gap if that is more. */
  lemma Apart(us: seq<real>, gap: real, a: nat, b: nat)
    requires Spaced(us, gap) && Ascending(us) && a < b < |us|
    ensures us[b] - us[a] >= Max(gap, 0.0)
  {
    assert us[b] - us[b - 1] >= gap;
    assert us[a] <= us[b - 1];
  }

  lemma Earlier(ys: seq<real>, order: seq<nat>, a: nat, b: nat)
    requires Within(ys, order) && Sorted(ys, order) && a < |order| && b < |order|
    requires Before(ys, order[a], order[b])
    ensures a < b
  {
  }

  /** Labels never overlap and never pass each other: of any two, the lower one, or of equals the one
      given first, still
      does, by at least the gap, whatever its sign. */
  lemma NeverOverlap(ys: seq<real>, gap: real, lo: real, hi: real, r: seq<real>, i: nat, j: nat)
    requires i < |ys| && j < |ys| && (ys[i] < ys[j] || (ys[i] == ys[j] && i < j))
    requires Labels(ys, gap, lo, hi, r)
    ensures r[j] - r[i] >= gap && r[j] >= r[i]
  {
    var a := PlaceOf(ys, i);
    var b := PlaceOf(ys, j);
    OrderSorted(ys, |ys|);
    Earlier(ys, Order(ys, |ys|), a, b);
    LinedAscends(ys);
    UpsAscend(Lined(ys), gap);
    UpsSpaced(Lined(ys), gap);
    Apart(Ups(Lined(ys), gap), gap, a, b);
  }

  /** Every label lands in the plot exactly when the spread of the placed labels fits there. */
  lemma InsideIff(ys: seq<real>, gap: real, lo: real, hi: real, r: seq<real>)
    requires ys != [] && Labels(ys, gap, lo, hi, r)
    ensures var us := Ups(Lined(ys), gap);
            (forall i :: 0 <= i < |r| ==> lo <= r[i] <= hi) <==> us[|us| - 1] - us[0] <= hi - lo
  {
    var us, order, n := Ups(Lined(ys), gap), Order(ys, |ys|), |ys| - 1;
    LinedAscends(ys);
    assert r[order[0]] == us[0] + Shift(us, lo, hi) && r[order[n]] == us[n] + Shift(us, lo, hi);
    UpAscends(Lined(ys), gap, 0, n);
    if us[n] - us[0] <= hi - lo {
      forall i | 0 <= i < |r|
        ensures lo <= r[i] <= hi
      {
        var k := PlaceOf(ys, i);
        UpAscends(Lined(ys), gap, 0, k);
        UpAscends(Lined(ys), gap, k, n);
      }
    }
  }

  /** Labels that are spaced and inside the plot stay where they are. */
  lemma Untouched(ys: seq<real>, gap: real, lo: real, hi: real, r: seq<real>)
    requires ys != [] && Labels(ys, gap, lo, hi, r)
    requires Spaced(Lined(ys), gap)
    requires forall i :: 0 <= i < |ys| ==> lo <= ys[i] <= hi
    ensures r == ys
  {
    var zs, us, n := Lined(ys), Ups(Lined(ys), gap), |ys| - 1;
    UpIdle(zs, gap, 0);
    UpIdle(zs, gap, n);
    forall i | 0 <= i < |ys|
      ensures r[i] == ys[i]
    {
      var k := PlaceOf(ys, i);
      UpIdle(zs, gap, k);
    }
  }

  /** A line from a to b, with a label at x in between, that ends up from low to high with the label
      at y. */
  predicate Moved(a: real, b: real, x: real, low: real, high: real, y: real, lo: real, hi: real) {
    && (lo <= a && b <= hi ==> y == x)
    && (lo <= a && b > hi ==> high == hi)
    && (lo > a && b <= hi ==> low == lo)
    && (lo > a && b > hi ==> lo - low == b - hi && high - hi == lo - a)
    && y - x == low - a == high - b
  }

  lemma ShiftMoves(us: seq<real>, lo: real, hi: real, n: nat, k: nat, low: real, high: real, y: real)
    requires |us| == n + 1 && k <= n
    requires var move := Shift(us, lo, hi); low == us[0] + move && high == us[n] + move && y == us[k] + move
    ensures Moved(us[0], us[n], us[k], low, high, y, lo, hi)
  {
  }

  lemma LabelAt(ys: seq<real>, gap: real, lo: real, hi: real, r: seq<real>, k: nat)
    requires k < |ys| && Labels(ys, gap, lo, hi, r)
    ensures var us := Ups(Lined(ys), gap); r[Order(ys, |ys|)[k]] == us[k] + Shift(us, lo, hi)
  {
  }

  /** Where the line from the lowest to the highest label goes, once placed: nowhere if it lies
      inside; down until the highest is at hi, if only that end sticks out; up until the lowest is at
      lo, if only that one does; and if both do, the two overhangs change places. All labels move
      alike. */
  lemma Moves(ys: seq<real>, gap: real, lo: real, hi: real, r: seq<real>, k: nat)
    requires k < |ys| && Labels(ys, gap, lo, hi, r)
    ensures var us, order, n := Ups(Lined(ys), gap), Order(ys, |ys|), |ys| - 1;
            Moved(us[0], us[n], us[k], r[order[0]], r[order[n]], r[order[k]], lo, hi)
  {
    var us, order, n := Ups(Lined(ys), gap), Order(ys, |ys|), |ys| - 1;
    LabelAt(ys, gap, lo, hi, r, 0);
    LabelAt(ys, gap, lo, hi, r, k);
    LabelAt(ys, gap, lo, hi, r, n);
    ShiftMoves(us, lo, hi, n, k, r[order[0]], r[order[n]], r[order[k]]);
  }

  function Abs(x: real): real {
    if x < 0.0 then -x else x
  }

  /** No smaller move would put all placed labels inside. */
  lemma LeastMove(ys: seq<real>, gap: real, lo: real, hi: real, r: seq<real>, move: real)
    requires ys != [] && Labels(ys, gap, lo, hi, r)
    requires var us := Ups(Lined(ys), gap); forall k :: 0 <= k < |us| ==> lo <= us[k] + move <= hi
    ensures Abs(r[Order(ys, |ys|)[0]] - Ups(Lined(ys), gap)[0]) <= Abs(move)
  {
    var us, n := Ups(Lined(ys), gap), |ys| - 1;
    assert lo <= us[0] + move && us[n] + move <= hi;
    Moves(ys, gap, lo, hi, r, 0);
  }

  /** Three labels at one place, a gap of 1 and a plot of height 1: they cannot all stay inside. */
  lemma OutsideExample(r: seq<real>)
    requires Labels([0.0, 0.0, 0.0], 1.0, 0.0, 1.0, r)
    ensures exists i :: 0 <= i < |r| && !(0.0 <= r[i] <= 1.0)
  {
    var ys := [0.0, 0.0, 0.0];
    NeverOverlap(ys, 1.0, 0.0, 1.0, r, 0, 1);
    NeverOverlap(ys, 1.0, 0.0, 1.0, r, 1, 2);
    assert r[2] - r[0] >= 2.0;
    assert !(0.0 <= r[0] <= 1.0) || !(0.0 <= r[2] <= 1.0);
  }
}
