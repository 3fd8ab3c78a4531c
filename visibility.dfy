/**
  What the practice canvas shows of the canonical strokes (`drawBase` and the gate of
  `drawAnimatedStroke`). Learning cards, and due cards in "full help" mode (2) or an
  unknown mode, show every stroke and every number. Due cards in "minimal help" mode
  (1) show completed strokes, the first stroke while nothing is completed, and the
  current stroke while the hint is active; numbers follow the same rule. Due cards in
  "procedural" mode (3) show completed strokes and the current one, and no number.
  A number is drawn only for a stroke that has a label position.
 */
module Visibility {
  import opened Wrappers
  import opened StrokeOrder

  /** What the predicates read: the card kind, the due mode, the completion state, the current stroke, the hint. */
  datatype View = View(isDue: bool, dueMode: int, completion: Completion, current: nat, hint: bool)

  function NumCompleted(c: Completion): nat {
    match c
    case Strict(count) => count
    case Unordered(done) => |done|
  }

  /** Minimal help: completed, first while nothing is completed, or current under the hint. */
  predicate MinimalHelpShows(v: View, idx: nat) {
    IsComplete(v.completion, idx) || (idx == 0 && NumCompleted(v.completion) == 0) || (idx == v.current && v.hint)
  }

  /** `showStroke` for the stroke at position idx (a stroke is current when it sits at `currentStrokeIndex`). */
  predicate ShowStroke(v: View, idx: nat) {
    if !v.isDue then true
    else if v.dueMode == 1 then MinimalHelpShows(v, idx)
    else if v.dueMode == 2 then true
    else if v.dueMode == 3 then IsComplete(v.completion, idx) || idx == v.current
    else true
  }

  /** `showNumber` for the stroke at position idx. */
  predicate ShowNumber(v: View, idx: nat) {
    if !v.isDue then true
    else if v.dueMode == 1 then MinimalHelpShows(v, idx)
    else if v.dueMode == 2 then true
    else if v.dueMode == 3 then false
    else true
  }

  /** The stroke's number is drawn: it has a label position and `showNumber` holds. */
  predicate DrawsNumber(v: View, labelX: Option<real>, idx: nat) {
    labelX.Some? && ShowNumber(v, idx)
  }

  /** The gate of the animated guide stroke, for n strokes. */
  predicate AnimatesCurrent(v: View, n: nat) {
    && v.current < n
    && (v.isDue && v.dueMode == 1 ==> (v.current == 0 && NumCompleted(v.completion) == 0) || v.hint)
  }

  /** The positions among 0..n-1 whose stroke `drawBase` draws, in order. */
  function VisibleStrokes(v: View, n: nat): (r: seq<nat>)
    ensures forall k :: 0 <= k < |r| ==> r[k] < n && ShowStroke(v, r[k])
    ensures forall k, l :: 0 <= k < l < |r| ==> r[k] < r[l]
    decreases n
  {
    if n == 0 then [] else VisibleStrokes(v, n - 1) + (if ShowStroke(v, n - 1) then [n - 1] else [])
  }

  /** The positions among the labels whose number `drawBase` draws, in order. */
  function VisibleNumbers(v: View, labels: seq<Option<real>>): (r: seq<nat>)
    ensures forall k :: 0 <= k < |r| ==> r[k] < |labels| && DrawsNumber(v, labels[r[k]], r[k])
    ensures forall k, l :: 0 <= k < l < |r| ==> r[k] < r[l]
    decreases |labels|
  {
    var n := |labels|;
    if n == 0 then []
    else VisibleNumbers(v, labels[..n - 1]) + (if DrawsNumber(v, labels[n - 1], n - 1) then [n - 1] else [])
  }

  /** Every position passing `showStroke` is drawn. */
  lemma {:induction false} VisibleStrokesComplete(v: View, n: nat, idx: nat)
    requires idx < n && ShowStroke(v, idx)
    ensures idx in VisibleStrokes(v, n)
    decreases n
  {
    if idx < n - 1 {
      VisibleStrokesComplete(v, n - 1, idx);
    }
  }

  /** The two drawing loops of `drawBase`: the strokes shown, then the numbers shown. */
  method DrawBase(v: View, labels: seq<Option<real>>) returns (strokes: seq<nat>, numbers: seq<nat>)
    ensures strokes == VisibleStrokes(v, |labels|)
    ensures numbers == VisibleNumbers(v, labels)
  {
    strokes := [];
    var idx := 0;
    while idx < |labels|
      invariant 0 <= idx <= |labels|
      invariant strokes == VisibleStrokes(v, idx)
    {
      if ShowStroke(v, idx) {
        strokes := strokes + [idx];
      }
      idx := idx + 1;
    }
    numbers := [];
    idx := 0;
    while idx < |labels|
      invariant 0 <= idx <= |labels|
      invariant numbers == VisibleNumbers(v, labels[..idx])
    {
      assert labels[..idx + 1][..idx] == labels[..idx];
      if labels[idx].Some? && ShowNumber(v, idx) {
        numbers := numbers + [idx];
      }
      idx := idx + 1;
    }
    assert labels[..|labels|] == labels;
  }

  /** A completed stroke is always shown, whatever the card and mode. */
  lemma CompletedStrokesShown(v: View, idx: nat)
    requires IsComplete(v.completion, idx)
    ensures ShowStroke(v, idx)
    ensures v.dueMode != 3 || !v.isDue ==> ShowNumber(v, idx)
  {
  }

  /** A number is only shown for a stroke that is shown. */
  lemma NumberOnlyWithStroke(v: View, idx: nat, labelX: Option<real>)
    requires DrawsNumber(v, labelX, idx)
    ensures ShowStroke(v, idx)
  {
  }

  /** The hint only ever reveals: anything shown without it is shown with it. */
  lemma HintOnlyReveals(v: View, idx: nat, n: nat)
    ensures ShowStroke(v.(hint := false), idx) ==> ShowStroke(v.(hint := true), idx)
    ensures ShowNumber(v.(hint := false), idx) ==> ShowNumber(v.(hint := true), idx)
    ensures AnimatesCurrent(v.(hint := false), n) ==> AnimatesCurrent(v.(hint := true), n)
  {
  }

  /** Procedural mode shows the current stroke and never a number. */
  lemma ProceduralMode(v: View, idx: nat, labelX: Option<real>)
    requires v.isDue && v.dueMode == 3
    ensures ShowStroke(v, v.current)
    ensures !DrawsNumber(v, labelX, idx)
    ensures ShowStroke(v, idx) <==> IsComplete(v.completion, idx) || idx == v.current
  {
  }

  /** Learning cards and full-help mode show everything. */
  lemma FullHelpShowsAll(v: View, idx: nat)
    requires !v.isDue || v.dueMode == 2
    ensures ShowStroke(v, idx) && ShowNumber(v, idx)
  {
  }

  /**
    Minimal help on a character with nothing completed, in range: without the hint
    only the first stroke is shown; with it, the current stroke too.
   */
  lemma MinimalHelpAtStart(v: View, n: nat, idx: nat)
    requires v.isDue && v.dueMode == 1 && InRange(v.completion, n) && NumCompleted(v.completion) == 0
    ensures ShowStroke(v, idx) <==> idx == 0 || (v.hint && idx == v.current)
  {
    match v.completion {
      case Strict(count) =>
      case Unordered(done) =>
        assert done == {};
    }
  }

  /** In minimal help the guide animation runs only for the first stroke of an untouched character, or under the hint. */
  lemma MinimalHelpAnimation(v: View, n: nat)
    requires v.isDue && v.dueMode == 1 && v.current < n
    ensures AnimatesCurrent(v, n) <==> (v.current == 0 && NumCompleted(v.completion) == 0) || v.hint
  {
  }
}
