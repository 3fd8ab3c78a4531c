/**
  The stroke-order rules of `endDraw`: which canonical strokes a freehand stroke is
  checked against, which one it completes, how direction errors are counted, and which
  stroke is expected next.

  Under the strict policy the completion state is a counter: only the stroke at that
  position is checked. Under the unordered policy it is a set of completed positions:
  every position not in the set is checked in ascending order, and the first one that
  passes both the shape and the direction test is taken. Each candidate that passes
  the shape test but fails the direction test counts one direction error, and the
  scan goes on past it.
 */
module StrokeOrder {
  import opened Wrappers
  import opened Geometry
  import opened StrokeExtraction
  import opened Corridor
  import opened Direction

  /** A canonical stroke as the practice canvas holds it: its record and its rasterized corridor. */
  datatype CanonicalStroke = CanonicalStroke(record: StrokeRecord, corridor: Mask, diag: real)

  /** `diag` is the diagonal of the corridor's bounding box. */
  predicate WellFormedStroke(s: CanonicalStroke) {
    IsDiagonal(s.corridor, s.diag)
  }

  predicate WellFormedStrokes(strokes: seq<CanonicalStroke>) {
    forall i :: 0 <= i < |strokes| ==> WellFormedStroke(strokes[i])
  }

  /** A freehand stroke in grid coordinates, with the length of each of its segments. */
  datatype Freehand = Freehand(pts: seq<Point>, lens: seq<real>)

  predicate Measured(f: Freehand) {
    IsSegmentLengths(f.pts, f.lens)
  }

  /** The configuration the tests read: strict order, direction checking, and the hit ratio. */
  datatype Policy = Policy(strict: bool, validateDirection: bool, hitRatio: real)

  function ShapeOk(f: Freehand, s: CanonicalStroke, p: Policy): bool
  {
    ShapeVerdict(f.pts, f.lens, s.corridor, s.diag, p.hitRatio)
  }

  function DirectionOk(f: Freehand, s: CanonicalStroke, p: Policy): bool {
    IsDirectionCorrect(p.validateDirection, f.pts, Some(s.record))
  }

  // ---------------------------------------------------------------------------
  // Completion state
  // ---------------------------------------------------------------------------

  datatype Completion = Strict(count: nat) | Unordered(done: set<nat>)

  function Initial(strict: bool): (c: Completion)
    ensures strict <==> c.Strict?
  {
    if strict then Strict(0) else Unordered({})
  }

  /** Whether the stroke at position i counts as completed (the test of the next-stroke loop). */
  predicate IsComplete(c: Completion, i: nat) {
    match c
    case Strict(count) => i < count
    case Unordered(done) => i in done
  }

  predicate AllComplete(c: Completion, n: nat) {
    match c
    case Strict(count) => count >= n
    case Unordered(done) => |done| >= n
  }

  /** Recording a match at position i among n strokes. */
  function Mark(c: Completion, i: nat, n: nat): (r: Completion)
    ensures r.Strict? == c.Strict?
    ensures c.Unordered? || (c.count < n && i == c.count) ==> IsComplete(r, i)
    ensures forall j: nat :: j < n && IsComplete(c, j) ==> IsComplete(r, j)
  {
    match c
    case Strict(count) => Strict(if count + 1 < n then count + 1 else n)
    case Unordered(done) => Unordered(done + {i})
  }

  /** The part of the state every reachable completion state satisfies: completed positions are real strokes. */
  predicate InRange(c: Completion, n: nat) {
    match c
    case Strict(count) => count <= n
    case Unordered(done) => forall i :: i in done ==> i < n
  }

  lemma MarkKeepsInRange(c: Completion, i: nat, n: nat)
    requires InRange(c, n) && i < n
    ensures InRange(Mark(c, i, n), n)
  {
  }

  /** The lowest position from i on that is not completed, or n. */
  function FirstIncompleteFrom(c: Completion, n: nat, i: nat): (r: nat)
    requires i <= n
    ensures i <= r <= n
    ensures forall j :: i <= j < r ==> IsComplete(c, j)
    ensures r < n ==> !IsComplete(c, r)
    decreases n - i
  {
    if i == n || !IsComplete(c, i) then i else FirstIncompleteFrom(c, n, i + 1)
  }

  /** `currentStrokeIndex` after a match: the lowest incomplete position, or n when all are complete. */
  function NextExpected(c: Completion, n: nat): (r: nat)
    ensures r <= n
    ensures forall j :: 0 <= j < r ==> IsComplete(c, j)
    ensures r < n ==> !IsComplete(c, r)
  {
    FirstIncompleteFrom(c, n, 0)
  }

  /** The loop that recomputes `currentStrokeIndex`. */
  method LowestIncomplete(c: Completion, n: nat) returns (idx: nat)
    ensures idx == NextExpected(c, n)
  {
    idx := 0;
    while idx < n
      invariant idx <= n
      invariant FirstIncompleteFrom(c, n, idx) == NextExpected(c, n)
    {
      match c {
        case Strict(count) =>
          if idx >= count {
            break;
          }
        case Unordered(done) =>
          if idx !in done {
            break;
          }
      }
      idx := idx + 1;
    }
  }

  lemma {:induction false} StrictFirstIncomplete(count: nat, n: nat, i: nat)
    requires i <= n
    ensures FirstIncompleteFrom(Strict(count), n, i) == if count <= i then i else if count < n then count else n
    decreases n - i
  {
    if i < n && i < count {
      StrictFirstIncomplete(count, n, i + 1);
    }
  }

  /** Under the strict policy the next expected stroke is the counter itself, capped at n. */
  lemma StrictNextIsCounter(count: nat, n: nat)
    ensures NextExpected(Strict(count), n) == if count < n then count else n
  {
    StrictFirstIncomplete(count, n, 0);
  }

  function RangeSet(n: nat): (r: set<nat>)
    ensures forall i: nat :: i in r <==> i < n
    ensures |r| == n
  {
    if n == 0 then {} else RangeSet(n - 1) + {n - 1}
  }

  lemma {:induction false} SubsetIsSmaller(a: set<nat>, b: set<nat>)
    requires a <= b
    ensures |a| <= |b|
    decreases |b|
  {
    if b != {} {
      var x :| x in b;
      SubsetIsSmaller(a - {x}, b - {x});
    }
  }

  lemma {:induction false} SubsetOfRangeIsSmaller(done: set<nat>, n: nat)
    requires forall i :: i in done ==> i < n
    ensures |done| <= n
    ensures |done| == n ==> forall i: nat :: i < n ==> i in done
  {
    var full := RangeSet(n);
    SubsetIsSmaller(done, full);
    if exists i: nat :: i < n && i !in done {
      var i: nat :| i < n && i !in done;
      SubsetIsSmaller(done, full - {i});
    }
  }

  /**
    Completion is detected exactly when every stroke position has been completed,
    under either policy.
   */
  lemma AllCompleteMeansEveryStroke(c: Completion, n: nat)
    requires InRange(c, n)
    ensures AllComplete(c, n) <==> forall i: nat :: i < n ==> IsComplete(c, i)
  {
    match c {
      case Strict(count) =>
        if !AllComplete(c, n) {
          assert !IsComplete(c, count);
        }
      case Unordered(done) =>
        SubsetOfRangeIsSmaller(done, n);
        if forall i: nat :: i < n ==> i in done {
          SubsetIsSmaller(RangeSet(n), done);
        } else {
          var i: nat :| i < n && i !in done;
          assert !IsComplete(c, i);
        }
    }
  }

  /** When all strokes are complete, nothing is expected: the next index is n. */
  lemma CompleteMeansNothingExpected(c: Completion, n: nat)
    requires InRange(c, n) && AllComplete(c, n)
    ensures NextExpected(c, n) == n
  {
    AllCompleteMeansEveryStroke(c, n);
  }

  // ---------------------------------------------------------------------------
  // Testing a freehand stroke
  // ---------------------------------------------------------------------------

  /** What testing one freehand stroke produced: the position it completes, and the direction errors it counted. */
  datatype Outcome = Outcome(matched: Option<nat>, dirErrors: nat)

  /** The two test results of the freehand stroke against one canonical stroke. */
  datatype Verdict = Verdict(shape: bool, direction: bool)

  function VerdictOf(f: Freehand, s: CanonicalStroke, p: Policy): Verdict {
    Verdict(ShapeOk(f, s, p), DirectionOk(f, s, p))
  }

  /** The test results against every canonical stroke, by position. */
  function Verdicts(strokes: seq<CanonicalStroke>, f: Freehand, p: Policy): (v: seq<Verdict>)
    ensures |v| == |strokes|
    ensures forall i :: 0 <= i < |strokes| ==> v[i] == VerdictOf(f, strokes[i], p)
  {
    seq(|strokes|, i requires 0 <= i < |strokes| => VerdictOf(f, strokes[i], p))
  }

  /** The strict policy: only the stroke at the counter's position, if there is one, is checked. */
  function StrictCheck(v: seq<Verdict>, count: nat): (o: Outcome)
    ensures o.matched.Some? ==> o.matched.value == count < |v|
    ensures o.dirErrors <= 1
  {
    if count >= |v| then Outcome(None, 0)
    else if v[count].shape && v[count].direction then Outcome(Some(count), 0)
    else if v[count].shape then Outcome(None, 1)
    else Outcome(None, 0)
  }

  /** The unordered policy: the scan over positions i, i + 1, ... that are not in `done`. */
  function ScanFrom(v: seq<Verdict>, done: set<nat>, i: nat): (o: Outcome)
    ensures o.matched.Some? ==> i <= o.matched.value < |v| && o.matched.value !in done
    decreases |v| - i
  {
    if i >= |v| then Outcome(None, 0)
    else if i in done then ScanFrom(v, done, i + 1)
    else if v[i].shape && v[i].direction then Outcome(Some(i), 0)
    else
      var rest := ScanFrom(v, done, i + 1);
      Outcome(rest.matched, rest.dirErrors + if v[i].shape then 1 else 0)
  }

  /** The policy's decision on the test results. */
  function Decide(v: seq<Verdict>, c: Completion): Outcome
  {
    match c
    case Strict(count) => StrictCheck(v, count)
    case Unordered(done) => ScanFrom(v, done, 0)
  }

  /** The test of a freehand stroke against the canonical strokes under the completion state. */
  function Check(strokes: seq<CanonicalStroke>, c: Completion, f: Freehand, p: Policy): Outcome
  {
    Decide(Verdicts(strokes, f, p), c)
  }

  predicate Passes(v: seq<Verdict>, i: nat)
    requires i < |v|
  {
    v[i].shape && v[i].direction
  }

  /**
    The scan completes position k exactly when k is the lowest position not yet
    completed at which the freehand stroke passes both tests.
   */
  lemma {:induction false} ScanTakesLowestPassing(v: seq<Verdict>, done: set<nat>, i: nat, k: nat)
    ensures ScanFrom(v, done, i).matched == Some(k) <==>
              && i <= k < |v| && k !in done && Passes(v, k)
              && forall j :: i <= j < k && j !in done ==> !Passes(v, j)
    decreases |v| - i
  {
    if i < |v| {
      ScanTakesLowestPassing(v, done, i + 1, k);
    }
  }

  /** The scan matches nothing exactly when no open position passes both tests. */
  lemma {:induction false} ScanFailsOnlyIfNothingPasses(v: seq<Verdict>, done: set<nat>, i: nat)
    ensures ScanFrom(v, done, i).matched.None? <==>
              forall j :: i <= j < |v| && j !in done ==> !Passes(v, j)
    decreases |v| - i
  {
    if i < |v| {
      ScanFailsOnlyIfNothingPasses(v, done, i + 1);
    }
  }

  /** Positions the scan reaches before it stops: open positions below the match, or all of them. */
  function Reached(v: seq<Verdict>, done: set<nat>, i: nat): (r: set<nat>)
    ensures forall j :: j in r ==> i <= j < |v| && j !in done
    decreases |v| - i
  {
    if i >= |v| then {}
    else if i in done then Reached(v, done, i + 1)
    else if Passes(v, i) then {}
    else {i} + Reached(v, done, i + 1)
  }

  /** The positions of r whose shape test the freehand stroke passes. */
  function ShapePassing(v: seq<Verdict>, r: set<nat>): set<nat>
  {
    set j | j in r && j < |v| && v[j].shape
  }

  /**
    The unordered scan counts one direction error per position it reaches whose
    shape test passes.
   */
  lemma {:induction false} ScanDirectionErrors(v: seq<Verdict>, done: set<nat>, i: nat)
    ensures ScanFrom(v, done, i).dirErrors == |ShapePassing(v, Reached(v, done, i))|
    decreases |v| - i
  {
    if i < |v| {
      ScanDirectionErrors(v, done, i + 1);
      var rest := Reached(v, done, i + 1);
      var all := Reached(v, done, i);
      if i in done {
        assert all == rest;
      } else if Passes(v, i) {
        assert all == {};
        assert ShapePassing(v, all) == {};
      } else {
        assert all == {i} + rest;
        var restShaped := ShapePassing(v, rest);
        if v[i].shape {
          assert ShapePassing(v, all) == {i} + restShaped;
          assert i !in restShaped;
        } else {
          assert ShapePassing(v, all) == restShaped;
        }
      }
    }
  }

  /** When every direction test passes, the scan counts no direction error. */
  lemma {:induction false} NoDirectionErrorsWhenAllPass(v: seq<Verdict>, done: set<nat>, i: nat)
    requires forall j :: 0 <= j < |v| ==> v[j].direction
    ensures ScanFrom(v, done, i).dirErrors == 0
    ensures StrictCheck(v, i).dirErrors == 0
    decreases |v| - i
  {
    if i < |v| {
      NoDirectionErrorsWhenAllPass(v, done, i + 1);
    }
  }

  /** With direction checking off, no direction error is ever counted. */
  lemma NoDirectionErrorsWhenOff(strokes: seq<CanonicalStroke>, c: Completion, f: Freehand, p: Policy)
    requires !p.validateDirection
    ensures Check(strokes, c, f, p).dirErrors == 0
  {
    var v := Verdicts(strokes, f, p);
    NoDirectionErrorsWhenAllPass(v, if c.Unordered? then c.done else {}, if c.Strict? then c.count else 0);
  }

  /** The unordered scan, as the loop in `endDraw`, with the corridor test as a method. */
  method ScanUnordered(strokes: seq<CanonicalStroke>, done: set<nat>, f: Freehand, p: Policy) returns (o: Outcome)
    requires Measured(f) && WellFormedStrokes(strokes)
    ensures o == ScanFrom(Verdicts(strokes, f, p), done, 0)
  {
    ghost var v := Verdicts(strokes, f, p);
    var matched: Option<nat> := None;
    var dirErrors := 0;
    var i := 0;
    while i < |strokes|
      invariant 0 <= i <= |strokes|
      invariant matched.None? ==> ScanFrom(v, done, 0)
                                  == Outcome(ScanFrom(v, done, i).matched, dirErrors + ScanFrom(v, done, i).dirErrors)
      invariant matched.Some? ==> ScanFrom(v, done, 0) == Outcome(matched, dirErrors)
      decreases |strokes| - i
    {
      if i in done {
        i := i + 1;
        continue;
      }
      var canonical := strokes[i];
      var okShape := IsStrokeCloseEnough(f.pts, f.lens, canonical.corridor, canonical.diag, p.hitRatio);
      var okDirection := IsDirectionCorrect(p.validateDirection, f.pts, Some(canonical.record));
      assert v[i] == Verdict(okShape, okDirection);
      if okShape && okDirection {
        matched := Some(i);
        break;
      } else if okShape && !okDirection {
        dirErrors := dirErrors + 1;
      }
      i := i + 1;
    }
    o := Outcome(matched, dirErrors);
  }

  /** The strict branch of `endDraw`. */
  method CheckStrict(strokes: seq<CanonicalStroke>, count: nat, f: Freehand, p: Policy) returns (o: Outcome)
    requires Measured(f) && WellFormedStrokes(strokes)
    ensures o == StrictCheck(Verdicts(strokes, f, p), count)
  {
    o := Outcome(None, 0);
    if count < |strokes| {
      var canonical := strokes[count];
      var okShape := IsStrokeCloseEnough(f.pts, f.lens, canonical.corridor, canonical.diag, p.hitRatio);
      var okDirection := IsDirectionCorrect(p.validateDirection, f.pts, Some(canonical.record));
      assert Verdicts(strokes, f, p)[count] == Verdict(okShape, okDirection);
      if okShape && okDirection {
        o := Outcome(Some(count), 0);
      } else if okShape && !okDirection {
        o := Outcome(None, 1);
      }
    }
  }

  /** A match marks a position inside the stroke list, which keeps the state in range. */
  lemma CheckKeepsInRange(strokes: seq<CanonicalStroke>, c: Completion, f: Freehand, p: Policy)
    requires InRange(c, |strokes|)
    ensures var o := Check(strokes, c, f, p);
            o.matched.Some? ==> o.matched.value < |strokes| && !IsComplete(c, o.matched.value)
                                && InRange(Mark(c, o.matched.value, |strokes|), |strokes|)
  {
  }

  /** Matching every stroke once, in any order, ends in completion under the unordered policy. */
  lemma {:induction false} DistinctMatchesComplete(order: seq<nat>, n: nat)
    requires forall k :: 0 <= k < |order| ==> order[k] < n
    requires forall a, b :: 0 <= a < b < |order| ==> order[a] != order[b]
    ensures InRange(MarkAll(Unordered({}), order, n), n)
    ensures AllComplete(MarkAll(Unordered({}), order, n), n) <==> |order| >= n
  {
    var c := MarkAll(Unordered({}), order, n);
    MarkAllDone(order, n);
    assert c.done == set k | 0 <= k < |order| :: order[k];
    DistinctCount(order);
    SubsetOfRangeIsSmaller(c.done, n);
  }

  /** The completion state after matches at the given positions, in order. */
  function MarkAll(c: Completion, order: seq<nat>, n: nat): (r: Completion)
    ensures r.Strict? == c.Strict?
    decreases |order|
  {
    if |order| == 0 then c else MarkAll(Mark(c, order[0], n), order[1..], n)
  }

  lemma {:induction false} MarkAllDone(order: seq<nat>, n: nat)
    ensures MarkAll(Unordered({}), order, n).done == set k | 0 <= k < |order| :: order[k]
  {
    MarkAllUnion({}, order, n);
  }

  lemma {:induction false} MarkAllUnion(done: set<nat>, order: seq<nat>, n: nat)
    ensures MarkAll(Unordered(done), order, n) == Unordered(done + set k | 0 <= k < |order| :: order[k])
    decreases |order|
  {
    if |order| > 0 {
      MarkAllUnion(done + {order[0]}, order[1..], n);
      var tail := set k | 0 <= k < |order| - 1 :: order[1..][k];
      var whole := set k | 0 <= k < |order| :: order[k];
      assert whole == {order[0]} + tail by {
        forall x | x in whole ensures x in {order[0]} + tail {
          var k :| 0 <= k < |order| && order[k] == x;
          if k > 0 {
            assert order[1..][k - 1] == x;
          }
        }
        forall x | x in tail ensures x in whole {
          var k :| 0 <= k < |order| - 1 && order[1..][k] == x;
          assert order[k + 1] == x;
        }
      }
    }
  }

  lemma {:induction false} DistinctCount(order: seq<nat>)
    requires forall a, b :: 0 <= a < b < |order| ==> order[a] != order[b]
    ensures |set k | 0 <= k < |order| :: order[k]| == |order|
    decreases |order|
  {
    if |order| > 0 {
      var front := order[..|order| - 1];
      DistinctCount(front);
      var last := order[|order| - 1];
      var s := set k | 0 <= k < |order| :: order[k];
      var sf := set k | 0 <= k < |front| :: front[k];
      assert s == sf + {last} by {
        forall x | x in s ensures x in sf + {last} {
          var k :| 0 <= k < |order| && order[k] == x;
          if k < |front| {
            assert front[k] == x;
          }
        }
        forall x | x in sf ensures x in s {
          var k :| 0 <= k < |front| && front[k] == x;
          assert order[k] == x;
        }
      }
      assert last !in sf;
    }
  }

  /** Under the strict policy k matches leave the counter at min(k, n). */
  lemma {:induction false} StrictMatchesCount(count: nat, order: seq<nat>, n: nat)
    requires count <= n
    ensures var r := MarkAll(Strict(count), order, n);
            r.count == if count + |order| < n then count + |order| else n
    decreases |order|
  {
    if |order| > 0 {
      StrictMatchesCount(Mark(Strict(count), order[0], n).count, order[1..], n);
    }
  }
}
