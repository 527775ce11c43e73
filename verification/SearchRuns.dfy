/** What the rate search does over whole runs of trials. */
module SearchRuns {
  import opened Words
  import opened RateSearch

  // A run is given by what its trials decide: every sequence of measurements gives one.

  /** The search after the first n trials of a run. */
  function At(c: Config, s: Search, ds: seq<Decision>, n: nat): Search
    requires n <= |ds|
  {
    if n == 0 then s else Apply(c, At(c, s, ds, n - 1), ds[n - 1])
  }

  /** A controller as a session creates it. */
  predicate Fresh(c: Config, s: Search) {
    0 <= s.index <= c.maxIdx && s.slow == s.retryCount == s.retryThresh == 0
  }

  /** The index is a row of the table after every run, under either algorithm and in every mode. */
  lemma {:induction false} AlwaysOnTable(c: Config, s: Search, ds: seq<Decision>, n: nat)
    requires c.Valid() && s.Valid(c) && n <= |ds|
    ensures At(c, s, ds, n).Valid(c)
  {
    if n > 0 {
      AlwaysOnTable(c, s, ds, n - 1);
      ApplyValid(c, At(c, s, ds, n - 1), ds[n - 1]);
    }
  }

  /** How many of the first n trials have the given effect on the state. */
  function Count(effect: (Search, Search) -> bool, c: Config, s: Search, ds: seq<Decision>, n: nat): nat
    requires n <= |ds|
  {
    if n == 0 then 0
    else Count(effect, c, s, ds, n - 1) + if effect(At(c, s, ds, n - 1), At(c, s, ds, n)) then 1 else 0
  }

  /** The index fell by more than one row. */
  const Plunge := (s: Search, s': Search) => s'.index < s.index - 1

  /** A good trial re-armed the fast ramp and raised the threshold for the next time. */
  const Rearm := (s: Search, s': Search) => 0 < s.retryThresh < s'.retryThresh

  /** A trial, good or bad, re-armed the fast ramp. */
  const Retry := (s: Search, s': Search) => s'.retryCount < s.retryCount

  /** How many of the first n trials were not suppressed. */
  function Searching(ds: seq<Decision>, n: nat): nat
    requires n <= |ds|
  {
    if n == 0 then 0 else Searching(ds, n - 1) + if ds[n - 1].Suppress? then 0 else 1
  }

  // ---------------------------------------------------------------------------
  // Algorithm B
  // ---------------------------------------------------------------------------

  lemma {:induction false} SlowStepB(c: Config, s: Search, d: Decision)
    requires c.Valid() && s.Valid(c) && c.algo != 1 && (c.Static() ==> s.slow == 0)
    ensures var s' := Apply(c, s, d);
            && (c.Static() ==> s'.slow == 0)
            && (s.slow >= c.slowAdjThresh ==> s'.slow >= c.slowAdjThresh && -1 <= s'.index - s.index <= 1)
            && (!c.Static() && Plunge(s, s') ==> s'.slow >= c.slowAdjThresh > s.slow)
  {
  }

  lemma {:induction false} StaticNeverSlow(c: Config, s: Search, ds: seq<Decision>, n: nat)
    requires s.slow == 0 && n <= |ds|
    ensures c.Static() ==> At(c, s, ds, n).slow == 0
  {
    if n > 0 { StaticNeverSlow(c, s, ds, n - 1); }
  }

  lemma {:induction false} TrialB(c: Config, s: Search, ds: seq<Decision>, m: nat)
    requires c.Valid() && c.algo != 1 && Fresh(c, s) && m < |ds|
    requires At(c, s, ds, m).slow >= c.slowAdjThresh
    ensures At(c, s, ds, m + 1).slow >= c.slowAdjThresh
    ensures -1 <= At(c, s, ds, m + 1).index - At(c, s, ds, m).index <= 1
  {
    StaticNeverSlow(c, s, ds, m);
    AlwaysOnTable(c, s, ds, m);
    SlowStepB(c, At(c, s, ds, m), ds[m]);
  }

  /** Once the slow count reaches its threshold algorithm B never leaves slow mode: every later
      trial of the run moves the index by at most one row. */
  lemma {:induction false} FastModeLeftForGood(c: Config, s: Search, ds: seq<Decision>, n: nat, m: nat)
    requires c.Valid() && c.algo != 1 && Fresh(c, s) && n <= m < |ds|
    requires At(c, s, ds, n).slow >= c.slowAdjThresh
    ensures At(c, s, ds, m).slow >= c.slowAdjThresh
    ensures -1 <= At(c, s, ds, m + 1).index - At(c, s, ds, m).index <= 1
    decreases m
  {
    if n < m {
      FastModeLeftForGood(c, s, ds, n, m - 1);
      TrialB(c, s, ds, m - 1);
    }
    TrialB(c, s, ds, m);
  }

  /** So the drop of three fast steps happens at most once in a run of algorithm B. */
  lemma {:induction false} AtMostOnePlunge(c: Config, s: Search, ds: seq<Decision>, n: nat)
    requires c.Valid() && c.algo != 1 && !c.Static() && Fresh(c, s) && n <= |ds|
    ensures Count(Plunge, c, s, ds, n) <= if At(c, s, ds, n).slow >= c.slowAdjThresh then 1 else 0
  {
    if n > 0 {
      AtMostOnePlunge(c, s, ds, n - 1);
      AlwaysOnTable(c, s, ds, n - 1);
      SlowStepB(c, At(c, s, ds, n - 1), ds[n - 1]);
    }
  }

  // ---------------------------------------------------------------------------
  // Algorithm C
  // ---------------------------------------------------------------------------

  /** The trials that m re-arms take: 5 + 10 + ... + 5m. */
  function Waits(m: nat): nat { if m == 0 then 0 else Waits(m - 1) + 5 * m }

  lemma {:induction false} WaitsQuadratic(m: nat)
    ensures 2 * Waits(m) == 5 * m * (m + 1)
    ensures 2 * Waits(m) >= 5 * m * m
  {
    if m > 0 { WaitsQuadratic(m - 1); }
  }

  /** m re-arms have been earned in n searching trials. */
  predicate BackedOff(t: Search, m: nat, n: nat) {
    && (if n == 0 then t.retryThresh == t.retryCount == m == 0
        else t.retryThresh == 5 * (m + 1) && 0 <= t.retryCount < t.retryThresh)
    && Waits(m) + t.retryCount <= n
  }

  lemma {:induction false} BackoffStep(c: Config, t: Search, v: Verdict, m: nat, n: nat)
    requires BackedOff(t, m, n)
    ensures var t' := MoveC(c, t, v);
            BackedOff(t', m + (if Rearm(t, t') then 1 else 0), n + 1)
  {
  }

  lemma {:induction false} Backoff(c: Config, s: Search, ds: seq<Decision>, n: nat)
    requires c.algo == 1 && !c.Static() && Fresh(c, s) && n <= |ds|
    ensures BackedOff(At(c, s, ds, n), Count(Rearm, c, s, ds, n), Searching(ds, n))
  {
    if n > 0 {
      Backoff(c, s, ds, n - 1);
      if ds[n - 1].Act? {
        BackoffStep(c, At(c, s, ds, n - 1), ds[n - 1].v, Count(Rearm, c, s, ds, n - 1), Searching(ds, n - 1));
      }
    }
  }

  /** After its first searching trial algorithm C waits 5(m+1) slow trials for its next fast retry,
      where m re-arms have been earned; m re-arms cost 5m(m+1)/2 trials, so m grows at most with
      the square root of the run length. */
  lemma {:induction false} QuadraticBackoff(c: Config, s: Search, ds: seq<Decision>, n: nat)
    requires c.algo == 1 && !c.Static() && Fresh(c, s) && n <= |ds|
    ensures var t, m, trials := At(c, s, ds, n), Count(Rearm, c, s, ds, n), Searching(ds, n);
            && (trials > 0 ==> t.retryThresh == 5 * (m + 1) && 0 <= t.retryCount < t.retryThresh)
            && 5 * m * (m + 1) + 2 * t.retryCount <= 2 * trials
            && 5 * m * m <= 2 * trials
  {
    Backoff(c, s, ds, n);
    WaitsQuadratic(Count(Rearm, c, s, ds, n));
  }

  lemma {:induction false} PlungeStep(c: Config, t: Search, v: Verdict)
    requires c.Valid() && t.Valid(c)
    requires t.retryThresh == t.retryCount == 0 || (5 <= t.retryThresh && t.retryCount < t.retryThresh)
    ensures var t' := MoveC(c, t, v);
            && (Plunge(t, t') ==> t.slow < c.slowAdjThresh <= t'.slow)
            && (t'.slow < c.slowAdjThresh <= t.slow ==> Retry(t, t'))
            && (if Retry(t, t') then t.retryCount >= 4 && t'.retryCount == 0 else t'.retryCount <= t.retryCount + 1)
  {
  }

  lemma {:induction false} PlungeTrial(c: Config, s: Search, ds: seq<Decision>, n: nat)
    requires c.Valid() && c.algo == 1 && !c.Static() && Fresh(c, s) && 0 < n <= |ds|
    ensures var t, t' := At(c, s, ds, n - 1), At(c, s, ds, n);
            && (Plunge(t, t') ==> t.slow < c.slowAdjThresh <= t'.slow)
            && (t'.slow < c.slowAdjThresh <= t.slow ==> Retry(t, t'))
            && (if Retry(t, t') then t.retryCount >= 4 && t'.retryCount == 0
                else t'.retryCount <= t.retryCount + if ds[n - 1].Suppress? then 0 else 1)
            && (Retry(t, t') ==> ds[n - 1].Act?)
  {
    Backoff(c, s, ds, n - 1);
    AlwaysOnTable(c, s, ds, n - 1);
    if ds[n - 1].Act? { PlungeStep(c, At(c, s, ds, n - 1), ds[n - 1].v); }
  }

  lemma {:induction false} RetriesCostTrials(c: Config, s: Search, ds: seq<Decision>, n: nat)
    requires c.Valid() && c.algo == 1 && !c.Static() && Fresh(c, s) && n <= |ds|
    ensures 5 * Count(Retry, c, s, ds, n) + At(c, s, ds, n).retryCount <= Searching(ds, n)
  {
    if n > 0 {
      RetriesCostTrials(c, s, ds, n - 1);
      PlungeTrial(c, s, ds, n);
    }
  }

  lemma {:induction false} PlungesNeedRetries(c: Config, s: Search, ds: seq<Decision>, n: nat)
    requires c.Valid() && c.algo == 1 && !c.Static() && Fresh(c, s) && n <= |ds|
    ensures Count(Plunge, c, s, ds, n)
            <= Count(Retry, c, s, ds, n) + if At(c, s, ds, n).slow >= c.slowAdjThresh then 1 else 0
  {
    if n > 0 {
      PlungesNeedRetries(c, s, ds, n - 1);
      PlungeTrial(c, s, ds, n);
    }
  }

  /** Large drops are rare in algorithm C too: after the first, each needs a retry of its own, and
      a retry takes at least five trials. */
  lemma {:induction false} PlungesCostTrials(c: Config, s: Search, ds: seq<Decision>, n: nat)
    requires c.Valid() && c.algo == 1 && !c.Static() && Fresh(c, s) && n <= |ds|
    ensures 5 * (Count(Plunge, c, s, ds, n) - 1) <= Searching(ds, n)
  {
    RetriesCostTrials(c, s, ds, n);
    PlungesNeedRetries(c, s, ds, n);
    Backoff(c, s, ds, n);
  }

  // ---------------------------------------------------------------------------
  // Ramping up
  // ---------------------------------------------------------------------------

  /** The state after n good trials in a row. */
  function GoodRun(c: Config, s: Search, n: nat): Search {
    if n == 0 then s else Move(c, GoodRun(c, s, n - 1), Good)
  }

  lemma {:induction false} GoodTrialsRamp(c: Config, s: Search, ds: seq<Decision>, n: nat)
    requires !c.Static() && n <= |ds| && forall i | 0 <= i < n :: ds[i] == Act(Good)
    ensures At(c, s, ds, n) == GoodRun(c, s, n)
  {
    if n > 0 { GoodTrialsRamp(c, s, ds, n - 1); }
  }

  /** How many fast steps take the index to the threshold. */
  function FastSteps(c: Config, index: int): (r: nat)
    requires c.highSpeedDelta > 0
  {
    if index >= c.hst then 0 else (c.hst - index + c.highSpeedDelta - 1) / c.highSpeedDelta
  }

  /** The index after n good trials of an armed algorithm B. */
  function RampIndex(c: Config, index: int, n: nat): int
    requires c.highSpeedDelta > 0
  {
    var r := FastSteps(c, index);
    if n < r then index + n * c.highSpeedDelta else Min(c.maxIdx, Max(index, c.hst) + (n - r))
  }

  lemma {:induction false} RampIndexStep(c: Config, index: int, n: nat)
    requires c.Valid() && 0 <= index <= c.maxIdx && n > 0
    ensures var i, i' := RampIndex(c, index, n - 1), RampIndex(c, index, n);
            if i < c.hst then i' == Min(c.hst, i + c.highSpeedDelta) else i' == Min(c.maxIdx, i + 1)
  {
    var d, r := c.highSpeedDelta, FastSteps(c, index);
    if index < c.hst && n <= r {
      CeilDiv(c.hst - index, d);
      assert n * d == (n - 1) * d + d;
      MulMono(d, n - 1, r - 1);
      if n < r { MulMono(d, n, r - 1); }
    }
  }

  /** The fast ramp of algorithm B in closed form: to the threshold in steps of highSpeedDelta,
      then one row per trial to the last row. */
  lemma {:induction false} RampB(c: Config, s: Search, n: nat)
    requires c.Valid() && c.algo != 1 && 0 <= s.index <= c.maxIdx && s.slow < c.slowAdjThresh
    ensures var t := GoodRun(c, s, n);
            && t.slow < c.slowAdjThresh && t.index == RampIndex(c, s.index, n)
            && (n > 0 && s.index < c.hst ==> t.slow == 0)
  {
    if n > 0 {
      RampB(c, s, n - 1);
      RampIndexStep(c, s.index, n);
    }
  }

  lemma {:induction false} CeilDiv(a: int, d: int)
    requires a > 0 && d > 0
    ensures var r := (a + d - 1) / d; r >= 1 && (r - 1) * d < a <= r * d
  {
  }

  function Pow2(n: nat): (p: nat)
    ensures p >= 1
  {
    if n == 0 then 1 else 2 * Pow2(n - 1)
  }

  /** Two good trials of algorithm C at least double the index; n pairs multiply it by 2^n, or
      reach the threshold. */
  lemma {:induction false} RampC(c: Config, s: Search, n: nat)
    requires c.Valid() && c.algo == 1 && 0 <= s.index <= c.maxIdx && s.slow < c.slowAdjThresh
    ensures var t := GoodRun(c, s, 2 * n);
            && 0 <= t.index <= c.maxIdx
            && (n == 0 ==> t.index == s.index)
            && (n > 0 ==> t.index >= Min(c.hst, Max(1, s.index) * Pow2(n)))
            && (t.index < c.hst ==> t.slow < c.slowAdjThresh)
  {
    if n > 0 {
      RampC(c, s, n - 1);
      OnePairMore(c, s, n);
      Doubling(Max(1, s.index), Pow2(n - 1));
    }
  }

  lemma {:induction false} Doubling(a: int, b: int)
    ensures a * (2 * b) == 2 * (a * b)
  {
  }

  lemma {:induction false} OnePairMore(c: Config, s: Search, n: nat)
    requires n > 0 && c.Valid() && c.algo == 1
    requires var t := GoodRun(c, s, 2 * (n - 1));
             0 <= t.index <= c.maxIdx && (t.index < c.hst ==> t.slow < c.slowAdjThresh)
    ensures var t, t' := GoodRun(c, s, 2 * (n - 1)), GoodRun(c, s, 2 * n);
            && Min(c.hst, 2 * Max(1, t.index)) <= t'.index <= c.maxIdx
            && (t'.index < c.hst ==> t'.slow < c.slowAdjThresh)
  {
    assert GoodRun(c, s, 2 * n) == MoveC(c, GoodRun(c, s, 2 * n - 1), Good);
    assert GoodRun(c, s, 2 * n - 1) == MoveC(c, GoodRun(c, s, 2 * n - 2), Good);
    PairC(c, GoodRun(c, s, 2 * (n - 1)));
  }

  lemma {:induction false} PairC(c: Config, s: Search)
    requires c.Valid() && 0 <= s.index <= c.maxIdx && (s.index < c.hst ==> s.slow < c.slowAdjThresh)
    ensures var t := MoveC(c, MoveC(c, s, Good), Good);
            && Min(c.hst, 2 * Max(1, s.index)) <= t.index <= c.maxIdx
            && (t.index < c.hst ==> t.slow < c.slowAdjThresh)
  {
  }

  /** From any row, twenty good trials of an armed algorithm C reach the 1 Gbps row. */
  lemma {:induction false} TwentyTrialsToHighSpeed(c: Config, s: Search)
    requires c.Valid() && c.algo == 1 && c.hst <= 1024 && 0 <= s.index <= c.maxIdx && s.slow < c.slowAdjThresh
    ensures GoodRun(c, s, 20).index >= c.hst
  {
    RampC(c, s, 10);
    PowerOfTen();
    MulMono(1024, 1, Max(1, s.index));
  }

  lemma {:induction false} PowerOfTen()
    ensures Pow2(10) == 1024
  {
  }

  /** Below the threshold the doubling is exact: n pairs of good trials take row i to row i * 2^n. */
  lemma {:induction false} DoublesExactly(c: Config, s: Search, n: nat)
    requires c.Valid() && c.algo == 1 && s.slow < c.slowAdjThresh && !s.update
    requires 1 <= s.index && s.index * Pow2(n) <= c.hst
    ensures var t := GoodRun(c, s, 2 * n);
            t.index == s.index * Pow2(n) && !t.update && t.slow < c.slowAdjThresh
  {
    if n > 0 {
      Doubling(s.index, Pow2(n - 1));
      MulMono(Pow2(n - 1), 1, s.index);
      DoublesExactly(c, s, n - 1);
      var t := GoodRun(c, s, 2 * (n - 1));
      assert GoodRun(c, s, 2 * n - 1) == MoveC(c, t, Good);
      assert GoodRun(c, s, 2 * n) == MoveC(c, MoveC(c, t, Good), Good);
      ExactPair(c, t);
    }
  }

  lemma {:induction false} ExactPair(c: Config, s: Search)
    requires c.Valid() && 1 <= s.index && 2 * s.index <= c.hst && s.slow < c.slowAdjThresh && !s.update
    ensures var t := MoveC(c, MoveC(c, s, Good), Good);
            t.index == 2 * s.index && !t.update && t.slow == 0
  {
  }

  /** Off the fast ramp algorithm B climbs one row per good trial. */
  lemma {:induction false} CrawlB(c: Config, s: Search, n: nat)
    requires c.Valid() && c.algo != 1 && 0 <= s.index <= c.maxIdx && s.slow >= c.slowAdjThresh
    ensures GoodRun(c, s, n) == s.(index := Min(c.maxIdx, s.index + n))
  {
    if n > 0 { CrawlB(c, s, n - 1); }
  }

  // ---------------------------------------------------------------------------
  // Coming down
  // ---------------------------------------------------------------------------

  /** The state after n bad trials in a row. */
  function BadRun(c: Config, s: Search, n: nat): Search {
    if n == 0 then s else Move(c, BadRun(c, s, n - 1), Bad)
  }

  lemma {:induction false} BadTrialsDescend(c: Config, s: Search, ds: seq<Decision>, n: nat)
    requires !c.Static() && n <= |ds| && forall i | 0 <= i < n :: ds[i] == Act(Bad)
    ensures At(c, s, ds, n) == BadRun(c, s, n)
  {
    if n > 0 { BadTrialsDescend(c, s, ds, n - 1); }
  }

  /** The index after n bad trials from a row with the given slow count: one row per trial, but three
      fast steps in the trial that takes the count to its threshold, if that finds it below hst. */
  function DescentIndex(c: Config, index: int, slow: int, n: nat): int {
    var left := c.slowAdjThresh - slow;
    if 1 <= left <= n && index - (left - 1) < c.hst then Max(0, index - (n - 1) - 3 * c.highSpeedDelta)
    else Max(0, index - n)
  }

  lemma {:induction false} DescentStep(c: Config, index: int, slow: int, n: nat)
    requires c.Valid() && 0 <= index && n > 0
    ensures var i, i' := DescentIndex(c, index, slow, n - 1), DescentIndex(c, index, slow, n);
            i' == if slow + n == c.slowAdjThresh && i < c.hst then Max(0, i - 3 * c.highSpeedDelta) else Max(0, i - 1)
  {
  }

  /** The descent of algorithm B in closed form. */
  lemma {:induction false} DescentB(c: Config, s: Search, n: nat)
    requires c.Valid() && c.algo != 1 && s.Valid(c)
    ensures BadRun(c, s, n) == s.(index := DescentIndex(c, s.index, s.slow, n), slow := s.slow + n)
  {
    if n > 0 {
      DescentB(c, s, n - 1);
      DescentStep(c, s.index, s.slow, n);
    }
  }

  /** What retryThresh is once the first trial has set it. */
  function RetryAfter(s: Search): int { if s.retryThresh == 0 then 5 else s.retryThresh }

  /** Until its next retry algorithm C comes down like algorithm B. */
  lemma {:induction false} DescentC(c: Config, s: Search, n: nat)
    requires c.Valid() && c.algo == 1 && s.Valid(c) && s.retryCount + n < RetryAfter(s)
    ensures var t := BadRun(c, s, n);
            && t.index == DescentIndex(c, s.index, s.slow, n) && t.slow == s.slow + n
            && s.retryCount <= t.retryCount <= s.retryCount + n && RetryAfter(t) == RetryAfter(s)
  {
    if n > 0 {
      DescentC(c, s, n - 1);
      DescentStep(c, s.index, s.slow, n);
    }
  }

  /** Under either algorithm n bad trials lower the index by n rows at least, or to row 0. */
  lemma {:induction false} BadTrialsLower(c: Config, s: Search, n: nat)
    requires c.Valid() && s.Valid(c)
    ensures var t := BadRun(c, s, n); t.Valid(c) && t.index <= Max(0, s.index - n)
  {
    if n > 0 {
      BadTrialsLower(c, s, n - 1);
      MoveDirection(c, BadRun(c, s, n - 1), Bad);
    }
  }

  /** Trial i moves an index that has room on both sides. */
  predicate Moves(c: Config, s: Search, ds: seq<Decision>, i: nat)
    requires i < |ds|
  {
    ds[i].Act? && ds[i].v != Hold && 0 < At(c, s, ds, i).index < c.maxIdx
  }

  /** Algorithm C off the fast ramp: the index moves one row a trial, and the retryThresh-th trial that
      moves it, and none before, puts it back on the ramp. */
  lemma {:induction false} RearmedAfterWait(c: Config, s: Search, ds: seq<Decision>, n: nat)
    requires c.Valid() && c.algo == 1 && !c.Static() && s.Valid(c) && s.slow >= c.slowAdjThresh
    requires 0 < s.retryThresh && s.retryCount < s.retryThresh
    requires n <= |ds| && n <= s.retryThresh - s.retryCount && forall i | 0 <= i < n :: Moves(c, s, ds, i)
    ensures var t := At(c, s, ds, n);
            && (n < s.retryThresh - s.retryCount ==>
                  t.slow >= c.slowAdjThresh && t.retryCount == s.retryCount + n && t.retryThresh == s.retryThresh)
            && (n == s.retryThresh - s.retryCount ==> t.slow == 0 && t.retryCount == 0)
            && (n > 0 ==> t.index - At(c, s, ds, n - 1).index == if ds[n - 1] == Act(Good) then 1 else -1)
  {
    if n > 0 {
      RearmedAfterWait(c, s, ds, n - 1);
      assert Moves(c, s, ds, n - 1);
    }
  }

  /** A static rate: its row after every trial, row 0 while adjustment is suppressed. */
  lemma {:induction false} StaticHeld(c: Config, s: Search, ds: seq<Decision>, n: nat)
    requires c.Static() && 0 < n <= |ds|
    ensures At(c, s, ds, n).index == if ds[n - 1] == Suppress then 0 else c.srIndexConf
  {
  }
}
