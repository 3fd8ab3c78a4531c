/**
  The practice canvas's session state and its event handlers: finishing a freehand
  stroke (`endDraw`), clearing the current character, moving to the previous or next
  character, restarting from the first one, and the hint button. Each handler is a
  method of `PracticeSession` proved to produce the new state that a pure function of
  the old one describes; the lemmas about those functions state how progress is kept
  per character, what is counted as an error and how completion is recorded.
 */
module PracticeSession {
  import opened Wrappers
  import opened Geometry
  import opened StrokeOrder
  import opened KanjiStats

  /** A character of the card: its text and its canonical strokes. */
  datatype KanjiEntry = KanjiEntry(character: string, strokes: seq<CanonicalStroke>)

  /** What the card fixes for the whole session. */
  datatype Config = Config(kanji: seq<KanjiEntry>, policy: Policy, autoAdvance: bool)

  predicate ValidConfig(cfg: Config) {
    forall k :: 0 <= k < |cfg.kanji| ==> WellFormedStrokes(cfg.kanji[k].strokes)
  }

  /** The strokes of the character at position k; none for a position past the end. */
  function StrokesOf(cfg: Config, k: nat): (r: seq<CanonicalStroke>)
    ensures k < |cfg.kanji| ==> r == cfg.kanji[k].strokes
    ensures k >= |cfg.kanji| ==> r == []
  {
    if k < |cfg.kanji| then cfg.kanji[k].strokes else []
  }

  /** In a well-formed configuration every character's strokes are well formed. */
  lemma StrokesOfWellFormed(cfg: Config, k: nat)
    requires ValidConfig(cfg)
    ensures WellFormedStrokes(StrokesOf(cfg, k))
  {
  }

  /** The progress kept per character: accepted freehand strokes, completion state and expected stroke. */
  datatype Progress = Progress(strokes: seq<seq<Point>>, completion: Completion, currentStrokeIndex: nat)

  function InitialProgress(cfg: Config): Progress {
    Progress([], Initial(cfg.policy.strict), 0)
  }

  datatype SessionState = SessionState(
    currentKanjiIndex: nat,
    strokePaths: seq<CanonicalStroke>,
    completion: Completion,
    currentStrokeIndex: nat,
    previousStrokeIndex: nat,
    userStrokes: seq<seq<Point>>,
    saved: map<nat, Progress>,
    hint: bool,
    sessionStart: Option<int>,
    strokeErrors: nat,
    directionErrors: nat,
    totalRedraws: nat,
    stats: StatsCache)

  function CurrentProgress(s: SessionState): Progress {
    Progress(s.userStrokes, s.completion, s.currentStrokeIndex)
  }

  /** A progress record fits the character at position k. */
  predicate ProgressFits(cfg: Config, k: nat, p: Progress) {
    p.completion.Strict? == cfg.policy.strict && InRange(p.completion, |StrokesOf(cfg, k)|)
  }

  /** What every state the handlers reach satisfies. */
  predicate Inv(cfg: Config, s: SessionState) {
    && (s.currentKanjiIndex < |cfg.kanji| || s.currentKanjiIndex == 0)
    && s.strokePaths == StrokesOf(cfg, s.currentKanjiIndex)
    && ProgressFits(cfg, s.currentKanjiIndex, CurrentProgress(s))
    && s.currentKanjiIndex in s.saved
    && (forall k {:trigger ProgressFits(cfg, k, s.saved[k])} :: k in s.saved ==> ProgressFits(cfg, k, s.saved[k]))
    // A character without strokes never records progress apart from its stored entry.
    && (|s.strokePaths| == 0 ==> s.saved[s.currentKanjiIndex] == CurrentProgress(s))
  }

  // ---------------------------------------------------------------------------
  // Saving and loading a character's progress
  // ---------------------------------------------------------------------------

  /** `saveCurrentKanjiState`: store the current progress, for a character that has strokes. */
  function SaveCurrent(s: SessionState): SessionState {
    if |s.strokePaths| > 0 then s.(saved := s.saved[s.currentKanjiIndex := CurrentProgress(s)])
    else s
  }

  /**
    `loadCurrentKanji`: load the character's strokes, then restore its stored
    progress, or start it afresh and store the fresh progress. The reset of the
    session counters that follows is guarded by the entry being absent, which it
    never is at that point (`LoadNeverResetsCounters`).
   */
  function LoadCurrent(cfg: Config, s: SessionState, now: int): SessionState {
    var s2 := Restored(cfg, s);
    if s.currentKanjiIndex !in s2.saved then
      s2.(sessionStart := Some(now), strokeErrors := 0, directionErrors := 0, totalRedraws := 0)
    else s2
  }

  /** The strokes loaded and the stored progress restored (or a fresh one stored), before the counters' guard. */
  function Restored(cfg: Config, s: SessionState): SessionState {
    var k := s.currentKanjiIndex;
    var paths := StrokesOf(cfg, k);
    if k in s.saved then
      var p := s.saved[k];
      s.(strokePaths := paths, userStrokes := p.strokes, completion := p.completion,
         currentStrokeIndex := p.currentStrokeIndex, previousStrokeIndex := p.currentStrokeIndex)
    else
      s.(strokePaths := paths, completion := Initial(cfg.policy.strict), currentStrokeIndex := 0, userStrokes := [],
         saved := s.saved[k := InitialProgress(cfg)], previousStrokeIndex := 0)
  }

  /** The state when the canvas opens, before the first character is loaded: no progress, the given statistics cache. */
  function Opening(cfg: Config, stats: StatsCache): SessionState {
    SessionState(0, [], Initial(cfg.policy.strict), 0, 0, [], map[], false, None, 0, 0, 0, stats)
  }

  function Start(cfg: Config, stats: StatsCache, now: int): SessionState {
    LoadCurrent(cfg, Opening(cfg, stats), now)
  }

  // ---------------------------------------------------------------------------
  // The handlers
  // ---------------------------------------------------------------------------

  /** The clear button: only the current character's progress is reset; a non-empty canvas counts a redraw. */
  function Clear(cfg: Config, s: SessionState): SessionState {
    s.(totalRedraws := if |s.userStrokes| > 0 then s.totalRedraws + 1 else s.totalRedraws,
       userStrokes := [], completion := Initial(cfg.policy.strict), currentStrokeIndex := 0, previousStrokeIndex := 0,
       saved := s.saved[s.currentKanjiIndex := InitialProgress(cfg)])
  }

  /** The state pointed at the character at position k, before it is loaded. */
  function MoveTo(s: SessionState, k: nat): SessionState {
    s.(currentKanjiIndex := k)
  }

  function Prev(cfg: Config, s: SessionState, now: int): SessionState {
    if s.currentKanjiIndex > 0 then LoadCurrent(cfg, MoveTo(SaveCurrent(s), s.currentKanjiIndex - 1), now)
    else s
  }

  function Next(cfg: Config, s: SessionState, now: int): SessionState {
    if s.currentKanjiIndex < |cfg.kanji| - 1 then LoadCurrent(cfg, MoveTo(SaveCurrent(s), s.currentKanjiIndex + 1), now)
    else s
  }

  /** The restart button: every character's progress is dropped and the first character is loaded. */
  function Restart(cfg: Config, s: SessionState, now: int): SessionState {
    LoadCurrent(cfg, Forget(s), now)
  }

  /** Every stored progress dropped, pointed at the first character. */
  function Forget(s: SessionState): SessionState {
    s.(saved := map[], currentKanjiIndex := 0)
  }

  /** The roll-up when the character at the current position is completed. */
  function RollUp(cfg: Config, s: SessionState, now: int): SessionState {
    if s.currentKanjiIndex < |cfg.kanji| then
      var session := Session(s.strokeErrors, s.directionErrors, s.totalRedraws, s.sessionStart, now);
      s.(stats := CompleteKanji(s.stats, cfg.kanji[s.currentKanjiIndex].character, session))
    else s
  }

  /** After a completion: advance to the next character when configured and there is one. */
  function AutoAdvance(cfg: Config, s: SessionState, now: int): SessionState {
    if cfg.autoAdvance && s.currentKanjiIndex < |cfg.kanji| - 1 then
      LoadCurrent(cfg, MoveTo(s, s.currentKanjiIndex + 1), now)
    else s
  }

  /** A freehand stroke that matched the stroke at position i. */
  function Accept(cfg: Config, s: SessionState, pts: seq<Point>, i: nat, now: int): SessionState {
    var n := |s.strokePaths|;
    var c := Mark(s.completion, i, n);
    var s1 := SaveCurrent(s.(completion := c, userStrokes := s.userStrokes + [pts], currentStrokeIndex := NextExpected(c, n)));
    if AllComplete(c, n) then AutoAdvance(cfg, RollUp(cfg, s1, now), now) else s1
  }

  /** The effect of a checked stroke: its direction errors are added, then it is accepted or counts one stroke error. */
  function CountDirectionErrors(s: SessionState, o: Outcome): SessionState {
    s.(directionErrors := s.directionErrors + o.dirErrors)
  }

  function Apply(cfg: Config, s: SessionState, pts: seq<Point>, o: Outcome, now: int): SessionState {
    var s1 := CountDirectionErrors(s, o);
    match o.matched
    case Some(i) => Accept(cfg, s1, pts, i, now)
    case None => s1.(strokeErrors := s1.strokeErrors + 1)
  }

  /**
    `endDraw` for a finished freehand stroke: a stroke of fewer than 5 points is
    discarded; otherwise the completion policy tests it and the outcome is applied.
   */
  function EndDraw(cfg: Config, s: SessionState, f: Freehand, now: int): SessionState {
    if |f.pts| < 5 then s else Apply(cfg, s, f.pts, Check(s.strokePaths, s.completion, f, cfg.policy), now)
  }

  // ---------------------------------------------------------------------------
  // The invariant is kept
  // ---------------------------------------------------------------------------

  lemma LoadKeepsInv(cfg: Config, s: SessionState, now: int)
    requires s.currentKanjiIndex < |cfg.kanji| || s.currentKanjiIndex == 0
    requires forall k :: k in s.saved ==> ProgressFits(cfg, k, s.saved[k])
    ensures Inv(cfg, LoadCurrent(cfg, s, now))
  {
    var k := s.currentKanjiIndex;
    var r := LoadCurrent(cfg, s, now);
    assert k in r.saved;
    if k !in s.saved {
      assert r.saved == s.saved[k := InitialProgress(cfg)];
    }
  }

  lemma SaveKeepsFits(cfg: Config, s: SessionState)
    requires Inv(cfg, s)
    ensures forall k :: k in SaveCurrent(s).saved ==> ProgressFits(cfg, k, SaveCurrent(s).saved[k])
    ensures SaveCurrent(s).saved[s.currentKanjiIndex] == CurrentProgress(s)
  {
  }

  lemma StartSatisfiesInv(cfg: Config, stats: StatsCache, now: int)
    ensures Inv(cfg, Start(cfg, stats, now))
  {
    LoadKeepsInv(cfg, Opening(cfg, stats), now);
  }

  lemma ClearKeepsInv(cfg: Config, s: SessionState)
    requires Inv(cfg, s)
    ensures Inv(cfg, Clear(cfg, s))
  {
  }

  lemma PrevKeepsInv(cfg: Config, s: SessionState, now: int)
    requires Inv(cfg, s)
    ensures Inv(cfg, Prev(cfg, s, now))
  {
    if s.currentKanjiIndex > 0 {
      SaveKeepsFits(cfg, s);
      var s1 := SaveCurrent(s);
      LoadKeepsInv(cfg, MoveTo(s1, s.currentKanjiIndex - 1), now);
    }
  }

  lemma NextKeepsInv(cfg: Config, s: SessionState, now: int)
    requires Inv(cfg, s)
    ensures Inv(cfg, Next(cfg, s, now))
  {
    if s.currentKanjiIndex < |cfg.kanji| - 1 {
      SaveKeepsFits(cfg, s);
      var s1 := SaveCurrent(s);
      LoadKeepsInv(cfg, MoveTo(s1, s.currentKanjiIndex + 1), now);
    }
  }

  lemma RestartKeepsInv(cfg: Config, s: SessionState, now: int)
    ensures Inv(cfg, Restart(cfg, s, now))
  {
    LoadKeepsInv(cfg, Forget(s), now);
  }

  /** Recording a match in range keeps the invariant (before the save). */
  lemma MarkKeepsInv(cfg: Config, s: SessionState, pts: seq<Point>, i: nat)
    requires Inv(cfg, s) && i < |s.strokePaths|
    ensures var n := |s.strokePaths|;
            var c := Mark(s.completion, i, n);
            Inv(cfg, s.(completion := c, userStrokes := s.userStrokes + [pts], currentStrokeIndex := NextExpected(c, n)))
  {
    MarkKeepsInRange(s.completion, i, |s.strokePaths|);
  }

  lemma SaveKeepsInv(cfg: Config, s: SessionState)
    requires Inv(cfg, s)
    ensures Inv(cfg, SaveCurrent(s))
  {
    SaveKeepsFits(cfg, s);
  }

  lemma RollUpKeepsInv(cfg: Config, s: SessionState, now: int)
    requires Inv(cfg, s)
    ensures Inv(cfg, RollUp(cfg, s, now))
  {
  }

  lemma AutoAdvanceKeepsInv(cfg: Config, s: SessionState, now: int)
    requires Inv(cfg, s)
    ensures Inv(cfg, AutoAdvance(cfg, s, now))
  {
    if cfg.autoAdvance && s.currentKanjiIndex < |cfg.kanji| - 1 {
      LoadKeepsInv(cfg, MoveTo(s, s.currentKanjiIndex + 1), now);
    }
  }

  lemma AcceptKeepsInv(cfg: Config, s: SessionState, pts: seq<Point>, i: nat, now: int)
    requires Inv(cfg, s) && i < |s.strokePaths|
    ensures Inv(cfg, Accept(cfg, s, pts, i, now))
  {
    var n := |s.strokePaths|;
    var c := Mark(s.completion, i, n);
    var s0 := s.(completion := c, userStrokes := s.userStrokes + [pts], currentStrokeIndex := NextExpected(c, n));
    MarkKeepsInv(cfg, s, pts, i);
    SaveKeepsInv(cfg, s0);
    var s1 := SaveCurrent(s0);
    if AllComplete(c, n) {
      RollUpKeepsInv(cfg, s1, now);
      AutoAdvanceKeepsInv(cfg, RollUp(cfg, s1, now), now);
    }
  }

  lemma ApplyKeepsInv(cfg: Config, s: SessionState, pts: seq<Point>, o: Outcome, now: int)
    requires Inv(cfg, s) && (o.matched.Some? ==> o.matched.value < |s.strokePaths|)
    ensures Inv(cfg, Apply(cfg, s, pts, o, now))
  {
    if o.matched.Some? {
      AcceptKeepsInv(cfg, CountDirectionErrors(s, o), pts, o.matched.value, now);
    }
  }

  lemma EndDrawKeepsInv(cfg: Config, s: SessionState, f: Freehand, now: int)
    requires Inv(cfg, s)
    ensures Inv(cfg, EndDraw(cfg, s, f, now))
  {
    if |f.pts| >= 5 {
      CheckKeepsInRange(s.strokePaths, s.completion, f, cfg.policy);
      ApplyKeepsInv(cfg, s, f.pts, Check(s.strokePaths, s.completion, f, cfg.policy), now);
    }
  }

  // ---------------------------------------------------------------------------
  // What the handlers promise
  // ---------------------------------------------------------------------------

  /** Loading never resets the session counters or sets the session start: the guarding entry is always present. */
  lemma LoadNeverResetsCounters(cfg: Config, s: SessionState, now: int)
    ensures var r := LoadCurrent(cfg, s, now);
            && r.strokeErrors == s.strokeErrors && r.directionErrors == s.directionErrors
            && r.totalRedraws == s.totalRedraws && r.sessionStart == s.sessionStart
            && r.stats == s.stats && r.hint == s.hint
  {
  }

  /** Saving and then loading the same character restores its strokes, completion state and expected stroke. */
  lemma SaveThenLoadRestores(cfg: Config, s: SessionState, now: int)
    requires Inv(cfg, s)
    ensures var r := LoadCurrent(cfg, SaveCurrent(s), now);
            CurrentProgress(r) == CurrentProgress(s) && r.strokePaths == s.strokePaths
  {
  }

  /**
    Moving to the next character and back restores the character, its strokes and
    its progress exactly.
   */
  lemma NextThenPrevRestores(cfg: Config, s: SessionState, now1: int, now2: int)
    requires Inv(cfg, s) && s.currentKanjiIndex < |cfg.kanji| - 1
    ensures var r := Prev(cfg, Next(cfg, s, now1), now2);
            && r.currentKanjiIndex == s.currentKanjiIndex
            && r.strokePaths == s.strokePaths
            && CurrentProgress(r) == CurrentProgress(s)
  {
    var s1 := SaveCurrent(s);
    SaveKeepsFits(cfg, s);
    var k := s.currentKanjiIndex;
    var t := LoadCurrent(cfg, MoveTo(s1, k + 1), now1);
    assert Next(cfg, s, now1) == t;
    LoadKeepsEntries(cfg, MoveTo(s1, k + 1), now1);
    assert t.saved[k] == CurrentProgress(s);
    var t1 := SaveCurrent(t);
    assert t1.saved[k] == CurrentProgress(s);
    assert Prev(cfg, t, now2) == LoadCurrent(cfg, MoveTo(t1, k), now2);
    LoadRestoresEntry(cfg, MoveTo(t1, k), now2);
  }

  /** Loading keeps every stored entry other than the loaded character's. */
  lemma LoadKeepsEntries(cfg: Config, s: SessionState, now: int)
    ensures var r := LoadCurrent(cfg, s, now);
            && r.currentKanjiIndex == s.currentKanjiIndex
            && s.currentKanjiIndex in r.saved
            && forall k :: k in s.saved && k != s.currentKanjiIndex ==> k in r.saved && r.saved[k] == s.saved[k]
  {
  }

  /** Loading a character with a stored entry restores exactly that entry. */
  lemma LoadRestoresEntry(cfg: Config, s: SessionState, now: int)
    requires s.currentKanjiIndex in s.saved
    ensures var r := LoadCurrent(cfg, s, now);
            && r.currentKanjiIndex == s.currentKanjiIndex
            && r.strokePaths == StrokesOf(cfg, s.currentKanjiIndex)
            && CurrentProgress(r) == s.saved[s.currentKanjiIndex]
  {
  }

  /** Clearing resets the current character's progress and stored entry, and nothing else's. */
  lemma ClearResetsOnlyCurrent(cfg: Config, s: SessionState)
    ensures var r := Clear(cfg, s);
            && CurrentProgress(r) == InitialProgress(cfg)
            && r.saved[s.currentKanjiIndex] == InitialProgress(cfg)
            && (forall k :: k in s.saved && k != s.currentKanjiIndex ==> k in r.saved && r.saved[k] == s.saved[k])
            && r.totalRedraws == s.totalRedraws + (if |s.userStrokes| > 0 then 1 else 0)
            && r.currentKanjiIndex == s.currentKanjiIndex && r.strokeErrors == s.strokeErrors
  {
  }

  /** After restart the first character is loaded afresh and no other character has stored progress. */
  lemma RestartForgetsAll(cfg: Config, s: SessionState, now: int)
    ensures var r := Restart(cfg, s, now);
            && r.currentKanjiIndex == 0
            && r.saved == map[0 := InitialProgress(cfg)]
            && CurrentProgress(r) == InitialProgress(cfg)
            && r.strokePaths == StrokesOf(cfg, 0)
  {
  }

  /** A freehand stroke of fewer than 5 points changes nothing. */
  lemma ShortStrokeIgnored(cfg: Config, s: SessionState, f: Freehand, now: int)
    requires Inv(cfg, s) && |f.pts| < 5
    ensures EndDraw(cfg, s, f, now) == s
  {
  }

  /**
    A stroke that matches nothing, even one rejected only for its direction, is
    discarded and counts one stroke error on top of the direction errors the test
    found; nothing else changes.
   */
  lemma UnmatchedStrokeCountsError(cfg: Config, s: SessionState, f: Freehand, now: int)
    requires Inv(cfg, s) && |f.pts| >= 5
    requires Check(s.strokePaths, s.completion, f, cfg.policy).matched.None?
    ensures var r := EndDraw(cfg, s, f, now);
            r == s.(strokeErrors := s.strokeErrors + 1,
                    directionErrors := s.directionErrors + Check(s.strokePaths, s.completion, f, cfg.policy).dirErrors)
  {
  }

  /**
    Under the strict policy a stroke that has the expected shape but the wrong
    direction counts both a direction error and a stroke error.
   */
  lemma WrongDirectionCountsTwice(cfg: Config, s: SessionState, f: Freehand, now: int)
    requires Inv(cfg, s) && |f.pts| >= 5 && cfg.policy.strict
    requires s.completion.count < |s.strokePaths|
    requires ShapeOk(f, s.strokePaths[s.completion.count], cfg.policy)
    requires !DirectionOk(f, s.strokePaths[s.completion.count], cfg.policy)
    ensures var r := EndDraw(cfg, s, f, now);
            r.strokeErrors == s.strokeErrors + 1 && r.directionErrors == s.directionErrors + 1
  {
  }

  /** Under the strict policy, once every stroke is complete any further stroke counts a stroke error. */
  lemma StrictStrokeAfterCompletion(cfg: Config, s: SessionState, f: Freehand, now: int)
    requires Inv(cfg, s) && |f.pts| >= 5 && cfg.policy.strict
    requires s.completion.count >= |s.strokePaths|
    ensures EndDraw(cfg, s, f, now) == s.(strokeErrors := s.strokeErrors + 1)
  {
  }

  /**
    An accepted stroke is kept, its position becomes complete, the expected stroke is
    the lowest incomplete one, and the character's stored progress is the new
    progress, unless the character was completed (then its statistics are rolled up,
    and it may advance).
   */
  lemma AcceptedStrokeRecorded(cfg: Config, s: SessionState, f: Freehand, now: int)
    requires Inv(cfg, s) && |f.pts| >= 5
    requires Check(s.strokePaths, s.completion, f, cfg.policy).matched.Some?
    requires !AllComplete(Mark(s.completion, Check(s.strokePaths, s.completion, f, cfg.policy).matched.value, |s.strokePaths|), |s.strokePaths|)
    ensures var r := EndDraw(cfg, s, f, now);
            var i := Check(s.strokePaths, s.completion, f, cfg.policy).matched.value;
            && r.userStrokes == s.userStrokes + [f.pts]
            && IsComplete(r.completion, i)
            && (forall j: nat :: j < |s.strokePaths| && IsComplete(s.completion, j) ==> IsComplete(r.completion, j))
            && r.currentStrokeIndex == NextExpected(r.completion, |s.strokePaths|)
            && r.saved[r.currentKanjiIndex] == CurrentProgress(r)
            && r.strokeErrors == s.strokeErrors && r.currentKanjiIndex == s.currentKanjiIndex
  {
    var o := Check(s.strokePaths, s.completion, f, cfg.policy);
    CheckKeepsInRange(s.strokePaths, s.completion, f, cfg.policy);
    var i := o.matched.value;
    match s.completion {
      case Strict(count) =>
        assert i == count;
      case Unordered(done) =>
    }
  }

  /**
    The stroke that completes a character rolls its statistics up once: one more
    attempt, with the session's counters added.
   */
  lemma CompletionRollsUpStats(cfg: Config, s: SessionState, f: Freehand, now: int)
    requires Inv(cfg, s) && |f.pts| >= 5
    requires Check(s.strokePaths, s.completion, f, cfg.policy).matched.Some?
    requires AllComplete(Mark(s.completion, Check(s.strokePaths, s.completion, f, cfg.policy).matched.value, |s.strokePaths|), |s.strokePaths|)
    requires s.currentKanjiIndex < |cfg.kanji|
    ensures var r := EndDraw(cfg, s, f, now);
            var ch := cfg.kanji[s.currentKanjiIndex].character;
            var dirErrors := s.directionErrors + Check(s.strokePaths, s.completion, f, cfg.policy).dirErrors;
            && ch in r.stats
            && r.stats[ch] == RecordCompletion(LoadStats(s.stats, ch),
                                               Session(s.strokeErrors, dirErrors, s.totalRedraws, s.sessionStart, now))
            && r.strokeErrors == s.strokeErrors && r.directionErrors == dirErrors
  {
    var o := Check(s.strokePaths, s.completion, f, cfg.policy);
    var s1 := CountDirectionErrors(s, o);
    assert EndDraw(cfg, s, f, now) == Accept(cfg, s1, f.pts, o.matched.value, now);
    CompletingAcceptRollsUp(cfg, s1, f.pts, o.matched.value, now);
  }

  /** The accepted stroke that completes the character rolls up the session's counters as they stand. */
  lemma CompletingAcceptRollsUp(cfg: Config, s: SessionState, pts: seq<Point>, i: nat, now: int)
    requires AllComplete(Mark(s.completion, i, |s.strokePaths|), |s.strokePaths|)
    requires s.currentKanjiIndex < |cfg.kanji|
    ensures var r := Accept(cfg, s, pts, i, now);
            var ch := cfg.kanji[s.currentKanjiIndex].character;
            && ch in r.stats
            && r.stats[ch] == RecordCompletion(LoadStats(s.stats, ch),
                                               Session(s.strokeErrors, s.directionErrors, s.totalRedraws, s.sessionStart, now))
            && r.strokeErrors == s.strokeErrors && r.directionErrors == s.directionErrors
  {
    var n := |s.strokePaths|;
    var c := Mark(s.completion, i, n);
    var s2 := SaveCurrent(s.(completion := c, userStrokes := s.userStrokes + [pts], currentStrokeIndex := NextExpected(c, n)));
    var s3 := RollUp(cfg, s2, now);
    LoadNeverResetsCounters(cfg, MoveTo(s3, s3.currentKanjiIndex + 1), now);
  }

  // ---------------------------------------------------------------------------
  // The session object
  // ---------------------------------------------------------------------------

  class PracticeSession {
    const cfg: Config
    var currentKanjiIndex: nat
    var strokePaths: seq<CanonicalStroke>
    var completion: Completion
    var currentStrokeIndex: nat
    var previousStrokeIndex: nat
    var userStrokes: seq<seq<Point>>
    var saved: map<nat, Progress>
    var hint: bool
    var sessionStart: Option<int>
    var strokeErrors: nat
    var directionErrors: nat
    var totalRedraws: nat
    var stats: StatsCache

    function State(): SessionState
      reads this
    {
      SessionState(currentKanjiIndex, strokePaths, completion, currentStrokeIndex, previousStrokeIndex,
                   userStrokes, saved, hint, sessionStart, strokeErrors, directionErrors, totalRedraws, stats)
    }

    predicate Valid()
      reads this
    {
      Inv(cfg, State())
    }

    /** Opening the canvas: the first character is loaded with the given statistics cache. */
    constructor(config: Config, cache: StatsCache, now: int)
      ensures Valid() && cfg == config && State() == Start(config, cache, now)
    {
      cfg := config;
      currentKanjiIndex := 0;
      strokePaths := [];
      completion := Initial(config.policy.strict);
      currentStrokeIndex := 0;
      previousStrokeIndex := 0;
      userStrokes := [];
      saved := map[];
      hint := false;
      sessionStart := None;
      strokeErrors := 0;
      directionErrors := 0;
      totalRedraws := 0;
      stats := cache;
      new;
      assert State() == Opening(cfg, cache);
      LoadCurrentKanji(now);
      StartSatisfiesInv(config, cache, now);
    }

    /** `saveCurrentKanjiState`: the current progress is stored under the current index.
        An internal step of the handlers: it neither needs nor promises `Valid()`; the
        handler calling it establishes `Valid()` afterwards (`SaveKeepsInv`). */
    method SaveCurrentKanjiState()
      modifies this
      ensures State() == SaveCurrent(old(State()))
    {
      if |strokePaths| > 0 {
        saved := saved[currentKanjiIndex := Progress(userStrokes, completion, currentStrokeIndex)];
      }
    }

    /** `loadCurrentKanji`: the stored progress of the current character is restored, or a fresh one started.
        An internal step of the handlers: it neither needs nor promises `Valid()`; the
        handler calling it establishes `Valid()` afterwards (`LoadKeepsInv`). */
    method LoadCurrentKanji(now: int)
      modifies this
      ensures State() == LoadCurrent(cfg, old(State()), now)
    {
      strokePaths := StrokesOf(cfg, currentKanjiIndex);
      if currentKanjiIndex in saved {
        var p := saved[currentKanjiIndex];
        userStrokes := p.strokes;
        completion := p.completion;
        currentStrokeIndex := p.currentStrokeIndex;
      } else {
        completion := Initial(cfg.policy.strict);
        currentStrokeIndex := 0;
        userStrokes := [];
        saved := saved[currentKanjiIndex := InitialProgress(cfg)];
      }
      previousStrokeIndex := currentStrokeIndex;
      assert State() == Restored(cfg, old(State()));
      LoadNeverResetsCounters(cfg, old(State()), now);
    }

    method ClearCanvas()
      requires Valid()
      modifies this
      ensures Valid() && State() == Clear(cfg, old(State()))
    {
      ghost var before := State();
      ClearKeepsInv(cfg, before);
      if |userStrokes| > 0 {
        totalRedraws := totalRedraws + 1;
      }
      userStrokes := [];
      completion := Initial(cfg.policy.strict);
      currentStrokeIndex := 0;
      previousStrokeIndex := 0;
      saved := saved[currentKanjiIndex := InitialProgress(cfg)];
      assert totalRedraws == Clear(cfg, before).totalRedraws;
      assert State() == Clear(cfg, before);
    }

    method PrevKanji(now: int)
      requires Valid()
      modifies this
      ensures Valid() && State() == Prev(cfg, old(State()), now)
    {
      ghost var before := State();
      PrevKeepsInv(cfg, before, now);
      if currentKanjiIndex > 0 {
        SaveCurrentKanjiState();
        currentKanjiIndex := currentKanjiIndex - 1;
        assert State() == MoveTo(SaveCurrent(before), before.currentKanjiIndex - 1);
        LoadCurrentKanji(now);
      }
    }

    method NextKanji(now: int)
      requires Valid()
      modifies this
      ensures Valid() && State() == Next(cfg, old(State()), now)
    {
      ghost var before := State();
      NextKeepsInv(cfg, before, now);
      if currentKanjiIndex < |cfg.kanji| - 1 {
        SaveCurrentKanjiState();
        currentKanjiIndex := currentKanjiIndex + 1;
        assert State() == MoveTo(SaveCurrent(before), before.currentKanjiIndex + 1);
        LoadCurrentKanji(now);
      }
    }

    method RestartAll(now: int)
      requires Valid()
      modifies this
      ensures Valid() && State() == Restart(cfg, old(State()), now)
    {
      ghost var before := State();
      RestartKeepsInv(cfg, before, now);
      saved := map[];
      currentKanjiIndex := 0;
      assert State() == Forget(before);
      LoadCurrentKanji(now);
    }

    /** The hint button; the timer that switches the hint off again calls `HintExpired`. */
    method ShowHint()
      requires Valid()
      modifies this
      ensures Valid() && State() == old(State()).(hint := true)
    {
      hint := true;
    }

    method HintExpired()
      requires Valid()
      modifies this
      ensures Valid() && State() == old(State()).(hint := false)
    {
      hint := false;
    }

    /** The roll-up of the current character's statistics on completion.
        An internal step of `endDraw`; the handler establishes `Valid()` afterwards (`RollUpKeepsInv`). */
    method RecordKanjiStats(now: int)
      modifies this
      ensures State() == RollUp(cfg, old(State()), now)
    {
      if currentKanjiIndex < |cfg.kanji| {
        var ch := cfg.kanji[currentKanjiIndex].character;
        var st := LoadStats(stats, ch);
        var sessionTime := now - match sessionStart { case None => 0 case Some(t) => t };
        st := Stats(
          st.totalAttempts + 1,
          if strokeErrors == 0 && directionErrors == 0 then st.consecutiveCorrect + 1 else 0,
          st.totalErrors + strokeErrors,
          st.totalDirectionErrors + directionErrors,
          st.totalRedraws + totalRedraws,
          st.totalTime + sessionTime,
          Some(now));
        stats := stats[ch := st];
      }
    }

    /** Recording a match at position i: the position is marked and the expected stroke recomputed.
        An internal step of `endDraw`; the handler establishes `Valid()` afterwards (`MarkKeepsInv`). */
    method MarkMatched(pts: seq<Point>, i: nat)
      modifies this
      ensures var n := |old(strokePaths)|;
              var c := Mark(old(completion), i, n);
              State() == old(State()).(completion := c, userStrokes := old(userStrokes) + [pts],
                                       currentStrokeIndex := NextExpected(c, n))
    {
      var n := |strokePaths|;
      match completion {
        case Strict(count) =>
          completion := Strict(if count + 1 < n then count + 1 else n);
        case Unordered(done) =>
          completion := Unordered(done + {i});
      }
      userStrokes := userStrokes + [pts];
      currentStrokeIndex := LowestIncomplete(completion, n);
    }

    /** A completed character: the statistics are rolled up, and the next character loaded when configured.
        An internal step of `endDraw`; the handler establishes `Valid()` afterwards (`AutoAdvanceKeepsInv`). */
    method FinishKanji(now: int)
      modifies this
      ensures State() == AutoAdvance(cfg, RollUp(cfg, old(State()), now), now)
    {
      ghost var before := State();
      RecordKanjiStats(now);
      ghost var rolled := State();
      if cfg.autoAdvance && currentKanjiIndex < |cfg.kanji| - 1 {
        currentKanjiIndex := currentKanjiIndex + 1;
        assert State() == MoveTo(rolled, rolled.currentKanjiIndex + 1);
        LoadCurrentKanji(now);
      }
    }

    /** The matched branch of `endDraw`: the match at position i is recorded.
        An internal step of `endDraw`; the handler establishes `Valid()` afterwards (`AcceptKeepsInv`). */
    method AcceptStroke(ghost s: SessionState, pts: seq<Point>, i: nat, now: int)
      requires State() == s
      modifies this
      ensures State() == Accept(cfg, s, pts, i, now)
    {
      var n := |strokePaths|;
      MarkMatched(pts, i);
      SaveCurrentKanjiState();
      if AllComplete(completion, n) {
        FinishKanji(now);
      }
    }

    /** The completion policy's test of the freehand stroke `f`; nothing changes. */
    method TestStroke(f: Freehand) returns (o: Outcome)
      requires ValidConfig(cfg) && Valid() && Measured(f)
      ensures o == Check(strokePaths, completion, f, cfg.policy)
    {
      StrokesOfWellFormed(cfg, currentKanjiIndex);
      match completion {
        case Strict(count) =>
          o := CheckStrict(strokePaths, count, f, cfg.policy);
        case Unordered(done) =>
          o := ScanUnordered(strokePaths, done, f, cfg.policy);
      }
    }

    /** Applying the outcome of a test: direction errors added, then the stroke accepted or a stroke error counted.
        An internal step of `endDraw`; the handler establishes `Valid()` afterwards (`ApplyKeepsInv`). */
    method ApplyOutcome(pts: seq<Point>, o: Outcome, now: int)
      modifies this
      ensures State() == Apply(cfg, old(State()), pts, o, now)
    {
      ghost var before := State();
      directionErrors := directionErrors + o.dirErrors;
      if o.matched.Some? {
        AcceptStroke(CountDirectionErrors(before, o), pts, o.matched.value, now);
      } else {
        strokeErrors := strokeErrors + 1;
      }
    }

    /** `endDraw` for the finished freehand stroke `f`, at time `now`. */
    method EndDrawStroke(f: Freehand, now: int)
      requires Valid() && ValidConfig(cfg) && Measured(f)
      modifies this
      ensures Valid() && State() == EndDraw(cfg, old(State()), f, now)
    {
      EndDrawKeepsInv(cfg, State(), f, now);
      if |f.pts| < 5 {
        return;
      }
      var o := TestStroke(f);
      ApplyOutcome(f.pts, o, now);
    }
  }
}
