/** The route graph of the transport router, as values: which rides
    `CreateGraph` emits for one bus, in which order, and what each one
    weighs. Positions along the route are the unit here; `RouterGraph` maps
    them to vertex ids and `EdgeInfo` records. */
module RouterSpec {

  /** One emitted ride, by route positions: from the stop at `from` to the
      stop at `to`, riding the hops between `boarded` and `to`. `boarded` is
      `from` itself, or a later (earlier, on the way back) position where the
      same stop recurs and the source restarts the weight at the wait. */
  datatype Ride = Ride(from: nat, to: nat, boarded: nat)

  /** The rows one after the other. */
  function Concat<X>(rows: seq<seq<X>>): seq<X>
    decreases |rows|
  {
    if rows == [] then [] else Concat(rows[..|rows| - 1]) + rows[|rows| - 1]
  }

  // ------------------------------------------------------------ forward pass

  /** Stop i recurs at position j: rides from i to every k > j, boarded at
      j, for k ascending (the innermost loop of the forward pass). */
  function FwdShortcuts(s: seq<string>, i: nat, j: nat): seq<Ride>
    requires j < |s|
  {
    seq(|s| - 1 - j, t requires 0 <= t < |s| - 1 - j => Ride(i, j + 1 + t, j))
  }

  /** The shortcuts ending at or before k: those before k, then the ride to k. */
  lemma FwdShortcutsSnoc(s: seq<string>, i: nat, j: nat, k: nat)
    requires j < k < |s|
    ensures FwdShortcuts(s, i, j)[..k - j] == FwdShortcuts(s, i, j)[..k - j - 1] + [Ride(i, k, j)]
  {
  }

  /** What step j of the walk from i emits: the shortcuts when stop i recurs
      at j, then the ride i -> j. */
  function FwdBlock(s: seq<string>, i: nat, j: nat): seq<Ride>
    requires i < |s| && j < |s|
  {
    (if s[i] == s[j] then FwdShortcuts(s, i, j) else []) + [Ride(i, j, i)]
  }

  /** The blocks of the walk from position i: one for each j > i, ascending. */
  function FwdBlocks(s: seq<string>, i: nat): (r: seq<seq<Ride>>)
    requires i < |s|
    ensures |r| == |s| - 1 - i
    ensures forall t | 0 <= t < |r| :: r[t] == FwdBlock(s, i, i + 1 + t)
  {
    seq(|s| - 1 - i, t requires 0 <= t < |s| - 1 - i => FwdBlock(s, i, i + 1 + t))
  }

  /** The walk from position i. */
  function FwdRow(s: seq<string>, i: nat): seq<Ride>
    requires i < |s|
  {
    Concat(FwdBlocks(s, i))
  }

  /** The rows of the forward pass: one for each i from the first stop to
      the last but one. */
  function FwdRows(s: seq<string>): (r: seq<seq<Ride>>)
    ensures |r| == if s == [] then 0 else |s| - 1
    ensures forall i | 0 <= i < |r| :: r[i] == FwdRow(s, i)
  {
    if s == [] then [] else seq(|s| - 1, i requires 0 <= i < |s| - 1 => FwdRow(s, i))
  }

  /** The forward pass. */
  function FwdPass(s: seq<string>): seq<Ride>
  {
    Concat(FwdRows(s))
  }

  // ------------------------------------------------------------ reverse pass

  /** Stop i recurs at position j < i: rides from i down to every k < j,
      boarded at j, for k descending. */
  function RevShortcuts(i: nat, j: nat): seq<Ride>
  {
    seq(j, t requires 0 <= t < j => Ride(i, j - 1 - t, j))
  }

  /** The shortcuts down to k: those down to k + 1, then the ride to k. */
  lemma RevShortcutsSnoc(i: nat, j: nat, k: nat)
    requires k < j
    ensures RevShortcuts(i, j)[..j - k] == RevShortcuts(i, j)[..j - 1 - k] + [Ride(i, k, j)]
  {
  }

  /** What step j of the walk down from i emits. */
  function RevBlock(s: seq<string>, i: nat, j: nat): seq<Ride>
    requires i < |s| && j < |s|
  {
    (if s[i] == s[j] then RevShortcuts(i, j) else []) + [Ride(i, j, i)]
  }

  /** The blocks of the walk down from position i: one for each j < i,
      descending. */
  function RevBlocks(s: seq<string>, i: nat): (r: seq<seq<Ride>>)
    requires i < |s|
    ensures |r| == i
    ensures forall t | 0 <= t < |r| :: r[t] == RevBlock(s, i, i - 1 - t)
  {
    seq(i, t requires 0 <= t < i => RevBlock(s, i, i - 1 - t))
  }

  /** The walk down from position i. */
  function RevRow(s: seq<string>, i: nat): seq<Ride>
    requires i < |s|
  {
    Concat(RevBlocks(s, i))
  }

  /** The rows of the reverse pass: one for each i from the last stop down
      to the second. */
  function RevRows(s: seq<string>): (r: seq<seq<Ride>>)
    ensures |r| == if s == [] then 0 else |s| - 1
    ensures forall t | 0 <= t < |r| :: r[t] == RevRow(s, |s| - 1 - t)
  {
    if s == [] then [] else seq(|s| - 1, t requires 0 <= t < |s| - 1 => RevRow(s, |s| - 1 - t))
  }

  /** The reverse pass. */
  function RevPass(s: seq<string>): seq<Ride>
  {
    Concat(RevRows(s))
  }

  /** Everything one bus contributes, in emission order: the forward pass,
      and the reverse pass for a linear bus. */
  function BusRides(s: seq<string>, circular: bool): seq<Ride>
  {
    FwdPass(s) + (if circular then [] else RevPass(s))
  }

  // ----------------------------------------------------------- what a ride is

  /** A forward ride: boarded at or after `from`, at a position holding the
      same stop, and left at a later position. */
  predicate IsFwdRide(s: seq<string>, r: Ride)
  {
    r.from <= r.boarded < r.to < |s| && s[r.boarded] == s[r.from]
  }

  /** A ride on the way back of a linear bus, the mirror image. */
  predicate IsRevRide(s: seq<string>, r: Ride)
  {
    r.to < r.boarded <= r.from < |s| && s[r.boarded] == s[r.from]
  }

  /** h[a] + ... + h[b-1]. */
  function Sum(h: seq<real>, a: nat, b: nat): real
    requires a <= b <= |h|
    decreases b
  {
    if a == b then 0.0 else Sum(h, a, b - 1) + h[b - 1]
  }

  /** One more hop on the right. */
  lemma SumStep(h: seq<real>, a: nat, b: nat)
    requires a <= b < |h|
    ensures Sum(h, a, b + 1) == Sum(h, a, b) + h[b]
  {
  }

  /** The weight of a forward ride: the wait plus the hop minutes from the
      boarding position on. `fwd[k]` is the hop k -> k+1. */
  function FwdWeight(fwd: seq<real>, wait: real, r: Ride): real
    requires r.boarded <= r.to <= |fwd|
  {
    wait + Sum(fwd, r.boarded, r.to)
  }

  /** The weight of a backward ride; `bwd[k]` is the hop k+1 -> k. */
  function RevWeight(bwd: seq<real>, wait: real, r: Ride): real
    requires r.to <= r.boarded <= |bwd|
  {
    wait + Sum(bwd, r.to, r.boarded)
  }

  lemma {:induction false} SumNonNegative(h: seq<real>, a: nat, b: nat)
    requires a <= b <= |h|
    requires forall t | 0 <= t < |h| :: h[t] >= 0.0
    ensures Sum(h, a, b) >= 0.0
    decreases b
  {
    if a < b {
      SumNonNegative(h, a, b - 1);
    }
  }

  /** The hops summed from the lower end: the order in which the return
      trip accumulates them. */
  lemma {:induction false} SumFromBelow(h: seq<real>, a: nat, b: nat)
    requires a < b <= |h|
    ensures Sum(h, a, b) == h[a] + Sum(h, a + 1, b)
    decreases b
  {
    if a + 1 < b {
      SumFromBelow(h, a, b - 1);
    }
  }

  // ------------------------------------------------------------ Concat

  /** The first m+1 rows concatenated: the first m, then row m. */
  lemma ConcatSnoc<X>(rows: seq<seq<X>>, m: nat)
    requires m < |rows|
    ensures Concat(rows[..m + 1]) == Concat(rows[..m]) + rows[m]
  {
    assert rows[..m + 1][..m] == rows[..m];
  }

  /** An element of a row is an element of the concatenation. */
  lemma {:induction false} ConcatHas<X>(rows: seq<seq<X>>, k: nat, x: X)
    requires k < |rows| && x in rows[k]
    ensures x in Concat(rows)
    decreases |rows|
  {
    var last := |rows| - 1;
    if k < last {
      ConcatHas(rows[..last], k, x);
    }
  }

  /** Every element of the concatenation comes from some row. */
  lemma {:induction false} ConcatFrom<X>(rows: seq<seq<X>>, x: X) returns (k: nat)
    requires x in Concat(rows)
    ensures k < |rows| && x in rows[k]
    decreases |rows|
  {
    var last := |rows| - 1;
    if x in rows[last] {
      k := last;
    } else {
      k := ConcatFrom(rows[..last], x);
    }
  }

  /** Rows of one element each: as many elements as rows. */
  lemma {:induction false} ConcatSingletons<X>(rows: seq<seq<X>>)
    requires forall k | 0 <= k < |rows| :: |rows[k]| == 1
    ensures |Concat(rows)| == |rows|
    decreases |rows|
  {
    if rows != [] {
      ConcatSingletons(rows[..|rows| - 1]);
    }
  }

  /** Rows of c, c-1, c-2, ... elements: L(2c - L + 1)/2 elements in all. */
  lemma {:induction false} ConcatTriangle<X>(rows: seq<seq<X>>, c: int)
    requires forall k | 0 <= k < |rows| :: |rows[k]| == c - k
    ensures 2 * |Concat(rows)| == |rows| * (2 * c - |rows| + 1)
    decreases |rows|
  {
    if rows != [] {
      var n := |rows|;
      ConcatTriangle(rows[..n - 1], c);
      assert (n - 1) * (2 * c - n + 2) + 2 * (c - n + 1) == n * (2 * c - n + 1);
    }
  }

  // ------------------------------------------------------------ soundness

  lemma {:induction false} FwdRowSound(s: seq<string>, i: nat, r: Ride)
    requires i < |s| && r in FwdRow(s, i)
    ensures IsFwdRide(s, r) && r.from == i
  {
    var blocks := FwdBlocks(s, i);
    var t := ConcatFrom(blocks, r);
    var j := i + 1 + t;
    assert r in FwdBlock(s, i, j);
    if r != Ride(i, j, i) {
      var sc := FwdShortcuts(s, i, j);
      var u :| 0 <= u < |sc| && sc[u] == r;
    }
  }

  lemma {:induction false} FwdPassSound(s: seq<string>, r: Ride)
    requires r in FwdPass(s)
    ensures IsFwdRide(s, r)
  {
    var rows := FwdRows(s);
    var i := ConcatFrom(rows, r);
    FwdRowSound(s, i, r);
  }

  lemma {:induction false} RevRowSound(s: seq<string>, i: nat, r: Ride)
    requires i < |s| && r in RevRow(s, i)
    ensures IsRevRide(s, r) && r.from == i
  {
    var blocks := RevBlocks(s, i);
    var t := ConcatFrom(blocks, r);
    var j := i - 1 - t;
    assert r in RevBlock(s, i, j);
    if r != Ride(i, j, i) {
      var sc := RevShortcuts(i, j);
      var u :| 0 <= u < |sc| && sc[u] == r;
    }
  }

  lemma {:induction false} RevPassSound(s: seq<string>, r: Ride)
    requires r in RevPass(s)
    ensures IsRevRide(s, r)
  {
    var rows := RevRows(s);
    var t := ConcatFrom(rows, r);
    RevRowSound(s, |s| - 1 - t, r);
  }

  // ------------------------------------------------------------ completeness

  lemma {:induction false} FwdRowComplete(s: seq<string>, r: Ride)
    requires IsFwdRide(s, r)
    ensures r in FwdRow(s, r.from)
  {
    var i := r.from;
    var blocks := FwdBlocks(s, i);
    var j := if r.boarded == i then r.to else r.boarded;
    if r.boarded == i {
      assert FwdBlock(s, i, j)[|FwdBlock(s, i, j)| - 1] == r;
    } else {
      assert FwdShortcuts(s, i, j)[r.to - j - 1] == r;
    }
    assert blocks[j - i - 1] == FwdBlock(s, i, j);
    ConcatHas(blocks, j - i - 1, r);
  }

  lemma {:induction false} FwdPassComplete(s: seq<string>, r: Ride)
    requires IsFwdRide(s, r)
    ensures r in FwdPass(s)
  {
    var rows := FwdRows(s);
    FwdRowComplete(s, r);
    assert rows[r.from] == FwdRow(s, r.from);
    ConcatHas(rows, r.from, r);
  }

  lemma {:induction false} RevRowComplete(s: seq<string>, r: Ride)
    requires IsRevRide(s, r)
    ensures r in RevRow(s, r.from)
  {
    var i := r.from;
    var blocks := RevBlocks(s, i);
    var j := if r.boarded == i then r.to else r.boarded;
    if r.boarded == i {
      assert RevBlock(s, i, j)[|RevBlock(s, i, j)| - 1] == r;
    } else {
      assert RevShortcuts(i, j)[j - 1 - r.to] == r;
    }
    assert blocks[i - 1 - j] == RevBlock(s, i, j);
    ConcatHas(blocks, i - 1 - j, r);
  }

  lemma {:induction false} RevPassComplete(s: seq<string>, r: Ride)
    requires IsRevRide(s, r)
    ensures r in RevPass(s)
  {
    var rows := RevRows(s);
    RevRowComplete(s, r);
    assert rows[|s| - 1 - r.from] == RevRow(s, r.from);
    ConcatHas(rows, |s| - 1 - r.from, r);
  }

  /** Exactly the forward rides are emitted forward: from every position to
      every later one, boarded where it starts, and, where its stop recurs
      before the destination, boarded again at that recurrence. The reverse
      pass of a linear bus emits exactly the backward rides. */
  lemma {:induction false} BusRidesExactly(s: seq<string>, circular: bool, r: Ride)
    ensures r in FwdPass(s) <==> IsFwdRide(s, r)
    ensures r in RevPass(s) <==> IsRevRide(s, r)
    ensures r in BusRides(s, circular) <==> IsFwdRide(s, r) || (!circular && IsRevRide(s, r))
  {
    if r in FwdPass(s) {
      FwdPassSound(s, r);
    }
    if IsFwdRide(s, r) {
      FwdPassComplete(s, r);
    }
    if r in RevPass(s) {
      RevPassSound(s, r);
    }
    if IsRevRide(s, r) {
      RevPassComplete(s, r);
    }
  }

  /** A route of one stop offers no ride. */
  lemma OneStopNoRides(s: seq<string>, circular: bool)
    requires |s| == 1
    ensures BusRides(s, circular) == []
  {
    var xs := BusRides(s, circular);
    if xs != [] {
      BusRidesExactly(s, circular, xs[0]);
    }
  }

  /** With non-negative hop times no edge weighs less than the wait. */
  lemma {:induction false} WeightAtLeastWait(fwd: seq<real>, bwd: seq<real>, wait: real, r: Ride)
    requires forall t | 0 <= t < |fwd| :: fwd[t] >= 0.0
    requires forall t | 0 <= t < |bwd| :: bwd[t] >= 0.0
    ensures r.boarded <= r.to <= |fwd| ==> FwdWeight(fwd, wait, r) >= wait
    ensures r.to <= r.boarded <= |bwd| ==> RevWeight(bwd, wait, r) >= wait
  {
    if r.boarded <= r.to <= |fwd| {
      SumNonNegative(fwd, r.boarded, r.to);
    }
    if r.to <= r.boarded <= |bwd| {
      SumNonNegative(bwd, r.to, r.boarded);
    }
  }

  // ------------------------------------------------------------------ counts

  predicate Distinct(s: seq<string>)
  {
    forall a, b | 0 <= a < b < |s| :: s[a] != s[b]
  }

  lemma {:induction false} FwdRowCount(s: seq<string>, i: nat)
    requires Distinct(s) && i < |s|
    ensures |FwdRow(s, i)| == |s| - 1 - i
  {
    var blocks := FwdBlocks(s, i);
    forall t | 0 <= t < |blocks| ensures |blocks[t]| == 1 {
      assert s[i] != s[i + 1 + t];
    }
    ConcatSingletons(blocks);
  }

  lemma {:induction false} RevRowCount(s: seq<string>, i: nat)
    requires Distinct(s) && i < |s|
    ensures |RevRow(s, i)| == i
  {
    var blocks := RevBlocks(s, i);
    forall t | 0 <= t < |blocks| ensures |blocks[t]| == 1 {
      assert s[i - 1 - t] != s[i];
    }
    ConcatSingletons(blocks);
  }

  lemma {:induction false} FwdPassCount(s: seq<string>)
    requires Distinct(s) && s != []
    ensures 2 * |FwdPass(s)| == |s| * (|s| - 1)
  {
    var rows := FwdRows(s);
    forall i | 0 <= i < |rows| ensures |rows[i]| == (|s| - 1) - i {
      FwdRowCount(s, i);
    }
    ConcatTriangle(rows, |s| - 1);
  }

  lemma {:induction false} RevPassCount(s: seq<string>)
    requires Distinct(s) && s != []
    ensures 2 * |RevPass(s)| == |s| * (|s| - 1)
  {
    var rows := RevRows(s);
    forall t | 0 <= t < |rows| ensures |rows[t]| == (|s| - 1) - t {
      RevRowCount(s, |s| - 1 - t);
    }
    ConcatTriangle(rows, |s| - 1);
  }

  /** A route of n pairwise different stops gets n(n-1)/2 rides forward,
      and as many again back when the bus is linear. */
  lemma {:induction false} DistinctStopsRideCount(s: seq<string>, circular: bool)
    requires Distinct(s)
    ensures 2 * |FwdPass(s)| == |s| * (|s| - 1)
    ensures |RevPass(s)| == |FwdPass(s)|
    ensures |BusRides(s, circular)| == (if circular then 1 else 2) * |FwdPass(s)|
  {
    if s != [] {
      FwdPassCount(s);
      RevPassCount(s);
    }
  }
}
