/**
  Per-character practice statistics and the roll-up done when a character is
  completed: one more attempt, the session's stroke errors, direction errors,
  redraws and time added to the totals, the time of the attempt stamped, and the
  streak of clean attempts extended or broken.
 */
module KanjiStats {
  import opened Wrappers

  datatype Stats = Stats(
    totalAttempts: nat, consecutiveCorrect: nat,
    totalErrors: nat, totalDirectionErrors: nat, totalRedraws: nat,
    totalTime: int, lastAttempt: Option<int>)

  /** The statistics of a character never completed before. */
  const Fresh := Stats(0, 0, 0, 0, 0, 0, None)

  /** The local statistics cache, by character. */
  type StatsCache = map<string, Stats>

  /** `loadKanjiStats`: the cached statistics, or fresh ones. */
  function LoadStats(cache: StatsCache, kanji: string): (s: Stats)
    ensures kanji !in cache ==> s == Fresh
    ensures kanji in cache ==> s == cache[kanji]
  {
    if kanji in cache then cache[kanji] else Fresh
  }

  /** One completed session of a character, as the roll-up reads it. */
  datatype Session = Session(strokeErrors: nat, directionErrors: nat, redraws: nat, sessionStart: Option<int>, now: int)

  predicate Clean(a: Session) {
    a.strokeErrors == 0 && a.directionErrors == 0
  }

  /** The session time: the start time is subtracted as a number, and an unset one counts as 0. */
  function SessionTime(a: Session): int {
    a.now - match a.sessionStart { case None => 0 case Some(t) => t }
  }

  /** The roll-up on completion of one character. */
  function RecordCompletion(s: Stats, a: Session): (r: Stats)
    ensures r.totalAttempts == s.totalAttempts + 1
    ensures r.lastAttempt == Some(a.now)
    ensures Clean(a) ==> r.consecutiveCorrect == s.consecutiveCorrect + 1
    ensures !Clean(a) ==> r.consecutiveCorrect == 0
  {
    Stats(
      s.totalAttempts + 1,
      if Clean(a) then s.consecutiveCorrect + 1 else 0,
      s.totalErrors + a.strokeErrors,
      s.totalDirectionErrors + a.directionErrors,
      s.totalRedraws + a.redraws,
      s.totalTime + SessionTime(a),
      Some(a.now))
  }

  /** Completing `kanji`: its cached statistics (or fresh ones) are rolled up and stored back. */
  function CompleteKanji(cache: StatsCache, kanji: string, a: Session): (r: StatsCache)
    ensures kanji in r && r.Keys == cache.Keys + {kanji}
    ensures forall k :: k in cache && k != kanji ==> r[k] == cache[k]
  {
    cache[kanji := RecordCompletion(LoadStats(cache, kanji), a)]
  }

  /** Resetting a character's statistics drops its cache entry. */
  function ResetStats(cache: StatsCache, kanji: string): (r: StatsCache)
    ensures kanji !in r
    ensures forall k :: k in cache && k != kanji ==> k in r && r[k] == cache[k]
  {
    cache - {kanji}
  }

  /** After a reset the character reads as never practised. */
  lemma ResetThenLoadIsFresh(cache: StatsCache, kanji: string)
    ensures LoadStats(ResetStats(cache, kanji), kanji) == Fresh
  {
  }

  // ---------------------------------------------------------------------------
  // A history of completions
  // ---------------------------------------------------------------------------

  /** The statistics after completing the sessions of `history`, oldest first. */
  function Replay(s: Stats, history: seq<Session>): Stats
    decreases |history|
  {
    if |history| == 0 then s else RecordCompletion(Replay(s, history[..|history| - 1]), history[|history| - 1])
  }

  function SumStrokeErrors(h: seq<Session>): nat
    decreases |h|
  {
    if |h| == 0 then 0 else SumStrokeErrors(h[..|h| - 1]) + h[|h| - 1].strokeErrors
  }

  function SumDirectionErrors(h: seq<Session>): nat
    decreases |h|
  {
    if |h| == 0 then 0 else SumDirectionErrors(h[..|h| - 1]) + h[|h| - 1].directionErrors
  }

  function SumRedraws(h: seq<Session>): nat
    decreases |h|
  {
    if |h| == 0 then 0 else SumRedraws(h[..|h| - 1]) + h[|h| - 1].redraws
  }

  function SumTime(h: seq<Session>): int
    decreases |h|
  {
    if |h| == 0 then 0 else SumTime(h[..|h| - 1]) + SessionTime(h[|h| - 1])
  }

  /** The length of the run of clean sessions at the end of the history. */
  function TrailingClean(h: seq<Session>): (n: nat)
    ensures n <= |h|
    ensures forall k :: |h| - n <= k < |h| ==> Clean(h[k])
    ensures n < |h| ==> !Clean(h[|h| - 1 - n])
    decreases |h|
  {
    if |h| == 0 || !Clean(h[|h| - 1]) then 0 else TrailingClean(h[..|h| - 1]) + 1
  }

  /**
    Over any history of completions, the totals are the starting totals plus the
    per-session sums, the attempt count grows by one per session, and the
    consecutive-correct count is the run of clean sessions at the end (added to the
    starting streak when the whole history is clean).
   */
  lemma {:induction false} ReplayTotals(s: Stats, h: seq<Session>)
    ensures var r := Replay(s, h);
            && r.totalAttempts == s.totalAttempts + |h|
            && r.totalErrors == s.totalErrors + SumStrokeErrors(h)
            && r.totalDirectionErrors == s.totalDirectionErrors + SumDirectionErrors(h)
            && r.totalRedraws == s.totalRedraws + SumRedraws(h)
            && r.totalTime == s.totalTime + SumTime(h)
            && r.consecutiveCorrect == (if TrailingClean(h) == |h| then s.consecutiveCorrect + |h| else TrailingClean(h))
            && r.lastAttempt == (if |h| == 0 then s.lastAttempt else Some(h[|h| - 1].now))
    decreases |h|
  {
    if |h| > 0 {
      ReplayTotals(s, h[..|h| - 1]);
    }
  }

  /** A streak counts only clean sessions: a positive streak from fresh statistics means the last session was clean. */
  lemma StreakMeansLastClean(h: seq<Session>)
    requires Replay(Fresh, h).consecutiveCorrect > 0
    ensures |h| > 0 && Clean(h[|h| - 1])
  {
    ReplayTotals(Fresh, h);
  }
}
