/** The cadence of one transmitter of sendLoop (internal/udpst/session.go): ticks, bounded catch-up
    and starting over when too far behind. */
module Pacing {
  import opened Words
  import opened Clock

  const CATCH_UP: nat := 20
  const IDLE: int := 10 * MS

  /** Ticks at next, next + iv, ... that are due at now. */
  function Due(next: int, now: int, iv: int): nat
    requires iv > 0
    decreases now - next
  {
    if next > now then 0 else 1 + Due(next + iv, now, iv)
  }

  /** The next tick after a wakeup: behind by more than twenty ticks, the cadence starts over. */
  function NextTick(next: int, now: int, iv: int): int
    requires iv > 0
  {
    if next + CATCH_UP * iv < now then now + iv else next + Min(CATCH_UP, Due(next, now, iv)) * iv
  }

  /** A transmitter's next tick and number of bursts after a turn. */
  function Turn(next: int, now: int, active: bool, iv: int): (int, nat)
    requires active ==> iv > 0
  {
    if active then (NextTick(next, now, iv), Min(CATCH_UP, Due(next, now, iv))) else (now + IDLE, 0)
  }

  lemma {:induction false} DueIff(next: int, now: int, iv: int, k: nat)
    requires iv > 0
    ensures next + k * iv <= now <==> k < Due(next, now, iv)
    decreases k
  {
    if next > now {
      MulMono(iv, 0, k);
    } else if k > 0 {
      DueIff(next + iv, now, iv, k - 1);
      assert k * iv == (k - 1) * iv + iv;
    }
  }

  lemma {:induction false} OneTick(next: int, now: int, iv: int, k: nat)
    requires iv > 0 && next + k * iv <= now
    ensures k + 1 <= Due(next, now, iv) && next + k * iv + iv == next + (k + 1) * iv
  {
    DueIff(next, now, iv, k);
  }

  /** Ticks that have come in the time since the first. */
  lemma {:induction false} DueIsElapsed(start: int, now: int, iv: int)
    requires iv > 0 && start <= now
    ensures Due(start, now, iv) == (now - start) / iv + 1
  {
    var q := (now - start) / iv;
    DivBounds(now - start, iv);
    DueIff(start, now, iv, q);
    DueIff(start, now, iv, q + 1);
  }

  lemma {:induction false} CaughtUp(next: int, now: int, iv: int, caught: nat)
    requires iv > 0 && caught <= Due(next, now, iv) && caught <= CATCH_UP
    requires next + caught * iv > now || caught == CATCH_UP
    ensures caught == Min(CATCH_UP, Due(next, now, iv))
    ensures NextTick(next, now, iv) == if next + caught * iv < now then now + iv else next + caught * iv
  {
    DueIff(next, now, iv, caught);
    if caught < CATCH_UP { MulMono(iv, caught, CATCH_UP); }
  }

  // ---------------------------------------------------------------------------
  // Runs of wakeups
  // ---------------------------------------------------------------------------

  /** A wakeup seen by one transmitter: whether the row found selected uses it, and how often. */
  datatype Wakeup = Wakeup(now: int, active: bool, iv: int)

  predicate Sound(ws: seq<Wakeup>) { forall i | 0 <= i < |ws| :: ws[i].active ==> ws[i].iv > 0 }

  datatype Pace = Pace(next: int, bursts: nat)

  /** The transmitter after the first n wakeups; it first ticks at start. */
  function PaceAt(start: int, ws: seq<Wakeup>, n: nat): Pace
    requires Sound(ws) && n <= |ws|
  {
    if n == 0 then Pace(start, 0)
    else
      var p := PaceAt(start, ws, n - 1);
      var turn := Turn(p.next, ws[n - 1].now, ws[n - 1].active, ws[n - 1].iv);
      Pace(turn.0, p.bursts + turn.1)
  }

  /** Time does not run backwards. */
  predicate Forward(ws: seq<Wakeup>) { forall i | 0 < i < |ws| :: ws[i - 1].now <= ws[i].now }

  /** And the first wakeup is not before the first tick. */
  predicate Timely(start: int, ws: seq<Wakeup>) { Forward(ws) && (ws != [] ==> start <= ws[0].now) }

  /** No interval is shorter than min. */
  predicate AtLeast(min: int, ws: seq<Wakeup>) {
    0 < min <= IDLE && forall i | 0 <= i < |ws| :: ws[i].active ==> min <= ws[i].iv
  }

  lemma {:induction false} TurnBounds(next: int, now: int, iv: int, min: int)
    requires 0 < min <= iv
    ensures var (next', bursts) := Turn(next, now, true, iv);
            && now <= next' && bursts <= CATCH_UP && next + bursts * min <= next'
            && (bursts > 0 ==> next + (bursts - 1) * min <= now)
  {
    var n := Min(CATCH_UP, Due(next, now, iv));
    DueIff(next, now, iv, n);
    MulMono(n, min, iv);
    if n > 0 {
      DueIff(next, now, iv, n - 1);
      MulMono(n - 1, min, iv);
    }
    if next + CATCH_UP * iv < now { MulMono(iv, n, CATCH_UP); }
  }

  /** bursts ticks have been sent, no more than one every min from start on, none ahead of its time. */
  predicate Paced(start: int, min: int, now: int, p: Pace) {
    && p.bursts * min <= p.next - start
    && start <= now <= p.next
    && (p.bursts > 0 ==> start + (p.bursts - 1) * min <= now)
  }

  lemma {:induction false} PacedTurn(start: int, min: int, p: Pace, now: int, active: bool, iv: int)
    requires 0 < min <= IDLE && (active ==> min <= iv) && start <= now && p.bursts * min <= p.next - start
    requires p.bursts > 0 ==> start + (p.bursts - 1) * min <= now
    ensures var turn := Turn(p.next, now, active, iv);
            Paced(start, min, now, Pace(turn.0, p.bursts + turn.1))
  {
    if active {
      TurnBounds(p.next, now, iv, min);
      var b := Turn(p.next, now, true, iv).1;
      Regrid(p.bursts, b, min);
      if b > 0 { Regrid(p.bursts, b - 1, min); }
    } else if p.bursts > 0 {
      MulStep(p.bursts - 1, min);
    }
  }

  lemma {:induction false} AlwaysPaced(start: int, min: int, ws: seq<Wakeup>, n: nat)
    requires Sound(ws) && AtLeast(min, ws) && Timely(start, ws) && 0 < n <= |ws|
    ensures Paced(start, min, ws[n - 1].now, PaceAt(start, ws, n))
  {
    if n > 1 {
      AlwaysPaced(start, min, ws, n - 1);
      assert ws[n - 1 - 1].now <= ws[n - 1].now;
    }
    PacedTurn(start, min, PaceAt(start, ws, n - 1), ws[n - 1].now, ws[n - 1].active, ws[n - 1].iv);
  }

  /** Pacing of a transmitter over every run of wakeups, however late, with rows and so intervals
      switched at will: never more bursts than ticks of the shortest interval have come, never more
      than twenty at once, and the next tick is never in the past. */
  lemma {:induction false} PacingBound(start: int, min: int, ws: seq<Wakeup>, n: nat)
    requires Sound(ws) && AtLeast(min, ws) && Timely(start, ws) && 0 < n <= |ws|
    ensures var p, q, now := PaceAt(start, ws, n - 1), PaceAt(start, ws, n), ws[n - 1].now;
            && p.bursts <= q.bursts <= p.bursts + CATCH_UP
            && start <= now <= q.next && q.bursts <= Due(start, now, min)
  {
    var q, now := PaceAt(start, ws, n), ws[n - 1].now;
    AlwaysPaced(start, min, ws, n);
    if q.bursts > 0 { DueIff(start, now, min, q.bursts - 1); }
  }

  /** A turn moves the next tick back if and only if the transmitter is idle and was further off than it
      is now put off. */
  lemma {:induction false} MovesBackIff(next: int, now: int, active: bool, iv: int)
    requires active ==> iv > 0
    ensures Turn(next, now, active, iv).0 < next <==> !active && next > now + IDLE
  {
    if active { TurnBounds(next, now, iv, iv); MulMono(iv, 0, Turn(next, now, true, iv).1); }
  }

  /** No interval is longer than an idle transmitter is put off. */
  predicate AtMostIdle(ws: seq<Wakeup>) { forall i | 0 <= i < |ws| :: ws[i].active ==> ws[i].iv <= IDLE }

  lemma {:induction false} TurnForward(next: int, now: int, active: bool, iv: int)
    requires next <= now + IDLE && (active ==> 0 < iv <= IDLE)
    ensures next <= Turn(next, now, active, iv).0 <= now + IDLE
  {
    if active {
      TurnBounds(next, now, iv, iv);
      var b := Min(CATCH_UP, Due(next, now, iv));
      MulMono(iv, 0, b);
      if b > 0 { MulStep(b - 1, iv); }
    }
  }

  /** Then the next tick never moves back, and is never further off than that. */
  lemma {:induction false} NextMovesForward(start: int, ws: seq<Wakeup>, n: nat)
    requires Sound(ws) && AtMostIdle(ws) && Timely(start, ws) && 0 < n <= |ws|
    ensures PaceAt(start, ws, n - 1).next <= PaceAt(start, ws, n).next <= ws[n - 1].now + IDLE
  {
    if n > 1 {
      NextMovesForward(start, ws, n - 1);
      assert ws[n - 1 - 1].now <= ws[n - 1].now;
    }
    TurnForward(PaceAt(start, ws, n - 1).next, ws[n - 1].now, ws[n - 1].active, ws[n - 1].iv);
  }

  /** The cadence is kept, no tick given up, exactly when a wakeup is at most twenty ticks late. */
  lemma {:induction false} NoTickDropped(next: int, now: int, iv: int)
    requires iv > 0
    ensures var (next', bursts) := Turn(next, now, true, iv);
            next' == next + bursts * iv <==> now - next <= CATCH_UP * iv
  {
    var n := Min(CATCH_UP, Due(next, now, iv));
    if next + CATCH_UP * iv < now { MulMono(iv, n, CATCH_UP); }
  }

  /** Ticks due from start on, split after the first b. */
  lemma {:induction false} DueSplit(start: int, now: int, iv: int, b: nat)
    requires iv > 0 && (b > 0 ==> start + (b - 1) * iv <= now)
    ensures b + Due(start + b * iv, now, iv) == Due(start, now, iv)
  {
    var d := Due(start + b * iv, now, iv);
    DueIff(start + b * iv, now, iv, d);
    assert (b + d) * iv == b * iv + d * iv;
    DueIff(start, now, iv, b + d);
    if d > 0 {
      DueIff(start + b * iv, now, iv, d - 1);
      assert (b + d - 1) * iv == b * iv + (d - 1) * iv;
      DueIff(start, now, iv, b + d - 1);
    } else if b > 0 {
      DueIff(start, now, iv, b - 1);
    }
  }

  /** Wakeup i finds the transmitter active at interval iv and fewer than twenty ticks behind. */
  predicate OnTime(start: int, iv: int, ws: seq<Wakeup>, i: nat)
    requires Sound(ws) && i < |ws|
  {
    ws[i].active && ws[i].iv == iv && ws[i].now - PaceAt(start, ws, i).next < CATCH_UP * iv
  }

  /** Jitter below twenty ticks costs nothing: every tick that has come has been sent. */
  lemma {:induction false} NoUndershoot(start: int, iv: int, ws: seq<Wakeup>, n: nat)
    requires Sound(ws) && iv > 0 && Forward(ws) && 0 < n <= |ws|
    requires forall i | 0 <= i < n :: OnTime(start, iv, ws, i)
    ensures var p := PaceAt(start, ws, n);
            && p.bursts == Due(start, ws[n - 1].now, iv)
            && p.next == start + p.bursts * iv
  {
    var p, now := PaceAt(start, ws, n - 1), ws[n - 1].now;
    assert OnTime(start, iv, ws, n - 1);
    if n > 1 {
      NoUndershoot(start, iv, ws, n - 1);
      assert ws[n - 1 - 1].now <= now;
      TickSent(start, ws[n - 2].now, now, iv);
    }
    OnGrid(start, iv, p.bursts, now);
  }

  lemma {:induction false} TickSent(start: int, before: int, now: int, iv: int)
    requires iv > 0 && before <= now
    ensures var b := Due(start, before, iv); b > 0 ==> start + (b - 1) * iv <= now
  {
    var b := Due(start, before, iv);
    if b > 0 { DueIff(start, before, iv, b - 1); }
  }

  lemma {:induction false} OnGrid(start: int, iv: int, b: nat, now: int)
    requires iv > 0 && (b > 0 ==> start + (b - 1) * iv <= now)
    requires now - (start + b * iv) < CATCH_UP * iv
    ensures var next := start + b * iv;
            Turn(next, now, true, iv) == (start + Due(start, now, iv) * iv, Due(start, now, iv) - b)
  {
    var next := start + b * iv;
    DueSplit(start, now, iv, b);
    FewDue(next, now, iv);
    Regrid(b, Due(next, now, iv), iv);
  }

  lemma {:induction false} FewDue(next: int, now: int, iv: int)
    requires iv > 0 && now - next < CATCH_UP * iv
    ensures Turn(next, now, true, iv) == (next + Due(next, now, iv) * iv, Due(next, now, iv))
  {
    DueIff(next, now, iv, CATCH_UP);
  }

  lemma {:induction false} Regrid(b: int, d: int, iv: int)
    ensures b * iv + d * iv == (b + d) * iv
  {
  }

  lemma {:induction false} TicksCover(start: int, now: int, iv: int)
    requires iv > 0 && start <= now
    ensures now - start < iv * Due(start, now, iv) <= now - start + iv
  {
    var d := Due(start, now, iv);
    DueIff(start, now, iv, d);
    DueIff(start, now, iv, d - 1);
    assert d * iv == (d - 1) * iv + iv;
  }
}
