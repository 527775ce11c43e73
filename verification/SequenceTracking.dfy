/** Sequence error classification (internal/udpst/accounting.go): the receiver knows only the
    highest sequence number and a ring of the last 32 recorded ones. */
module SequenceTracking {
  import opened Words

  const HISTORY: nat := 32

  datatype Window = Window(top: u32, ring: seq<u32>, next: nat) {
    predicate Valid() { |ring| == HISTORY && next < HISTORY }
  }

  datatype Kind = Advance(gap: u32) | Duplicate | Late

  datatype SeqErrs = SeqErrs(loss: u32, ooo: u32, dup: u32)

  const NO_ERRS := SeqErrs(0, 0, 0)

  function FreshWindow(): (w: Window)
    ensures w.Valid()
  {
    Window(0, seq(HISTORY, _ => 0), 0)
  }

  /** What recordSeq decides about a sequence number; top + 1 wraps at 2^32. */
  function Classify(w: Window, x: u32): Kind {
    if x >= Wrap32(w.top + 1) then Advance(Wrap32(x - w.top - 1))
    else if x in w.ring then Duplicate
    else Late
  }

  function Push(w: Window, x: u32): Window
    requires w.Valid()
  {
    w.(ring := w.ring[w.next := x], next := (w.next + 1) % HISTORY)
  }

  /** The window after one datagram. */
  function Track(w: Window, x: u32): (w': Window)
    requires w.Valid()
    ensures w'.Valid()
  {
    match Classify(w, x)
    case Advance(_) => Push(w.(top := x), x)
    case Duplicate => w
    case Late => Push(w, x)
  }

  /** The three error counters after one datagram; a loss is only taken back while it is still unreported. */
  function Tally(e: SeqErrs, k: Kind): SeqErrs {
    match k
    case Advance(gap) => e.(loss := Wrap32(e.loss + gap))
    case Duplicate => e.(dup := Wrap32(e.dup + 1))
    case Late => e.(ooo := Wrap32(e.ooo + 1), loss := if e.loss > 0 then e.loss - 1 else 0)
  }

  // ---------------------------------------------------------------------------
  // Runs: datagrams in arrival order, with cuts where the counters are reported and zeroed
  // ---------------------------------------------------------------------------

  datatype Item = Got(x: u32) | Cut

  datatype Progress = Progress(win: Window, errs: SeqErrs, reports: seq<SeqErrs>)

  function Step(p: Progress, item: Item): (p': Progress)
    requires p.win.Valid()
    ensures p'.win.Valid()
  {
    match item
    case Got(x) => p.(win := Track(p.win, x), errs := Tally(p.errs, Classify(p.win, x)))
    case Cut => p.(errs := NO_ERRS, reports := p.reports + [p.errs])
  }

  function Replay(items: seq<Item>): (p: Progress)
    ensures p.win.Valid()
  {
    if items == [] then Progress(FreshWindow(), NO_ERRS, [])
    else Step(Replay(Front(items)), Last(items))
  }

  function Front<T>(s: seq<T>): seq<T>
    requires s != []
  {
    s[..|s| - 1]
  }

  function Last<T>(s: seq<T>): T
    requires s != []
  {
    s[|s| - 1]
  }

  function SumLoss(reports: seq<SeqErrs>): nat {
    if reports == [] then 0 else SumLoss(Front(reports)) + Last(reports).loss
  }

  // ---------------------------------------------------------------------------
  // The ideal receiver, which remembers every sequence number
  // ---------------------------------------------------------------------------

  /** Sequence numbers start at 1, and the top one is never the last before the wrap. */
  predicate Legal(items: seq<Item>) {
    forall i | 0 <= i < |items| && items[i].Got? :: 1 <= items[i].x < 0xFFFF_FFFF
  }

  ghost function Seen(items: seq<Item>): set<int> {
    if items == [] then {}
    else if Last(items).Got? then Seen(Front(items)) + {Last(items).x}
    else Seen(Front(items))
  }

  function Top(items: seq<Item>): u32 {
    if items == [] then 0
    else if Last(items).Got? then Max(Top(Front(items)), Last(items).x)
    else Top(Front(items))
  }

  /** Sequence numbers passed over and not received so far. */
  ghost function Missing(items: seq<Item>): set<int> {
    Range(1, Top(items)) - Seen(items)
  }

  ghost function Range(lo: int, hi: int): (r: set<int>)
    ensures forall n :: n in r <==> lo <= n <= hi
    ensures |r| == if hi < lo then 0 else hi - lo + 1
    decreases hi - lo
  {
    if hi < lo then {} else Range(lo, hi - 1) + {hi}
  }

  /** How the ideal receiver classifies x after the given items. */
  ghost function IdealKind(items: seq<Item>, x: u32): Kind {
    if x > Top(items) then Advance(x - Top(items) - 1)
    else if x in Seen(items) then Duplicate
    else Late
  }

  /** The distinct sequence numbers in order of first arrival. */
  ghost function Firsts(items: seq<Item>): seq<int> {
    if items == [] then []
    else if Last(items).Got? && Last(items).x !in Seen(Front(items)) then Firsts(Front(items)) + [Last(items).x]
    else Firsts(Front(items))
  }

  ghost function Recent(log: seq<int>): seq<int> {
    if |log| <= HISTORY then log else log[|log| - HISTORY..]
  }

  ghost predicate WindowedAt(items: seq<Item>, i: nat)
    requires i < |items|
  {
    items[i].Got? && items[i].x in Seen(items[..i]) ==> items[i].x in Recent(Firsts(items[..i]))
  }

  /** Every repeat arrives while its first arrival is among the 32 latest distinct numbers. */
  ghost predicate Windowed(items: seq<Item>) {
    forall i | 0 <= i < |items| :: WindowedAt(items, i)
  }

  ghost predicate AgreesAt(items: seq<Item>, i: nat)
    requires i < |items|
  {
    items[i].Got? ==> Classify(Replay(items[..i]).win, items[i].x) == IdealKind(items[..i], items[i].x)
  }

  /** The ring receiver decides like the ideal one on every datagram of the run. */
  ghost predicate Agrees(items: seq<Item>) {
    forall i | 0 <= i < |items| :: AgreesAt(items, i)
  }

  /** A repeat that has left the ring, so that it passes for a late first arrival. */
  ghost predicate Misread(items: seq<Item>, x: u32) {
    x in Seen(items) && Classify(Replay(items).win, x) == Late
  }

  ghost function Misreads(items: seq<Item>): nat {
    if items == [] then 0
    else Misreads(Front(items)) +
         if Last(items).Got? && Misread(Front(items), Last(items).x) then 1 else 0
  }

  /** Misread repeats that took back a loss. */
  ghost function Stolen(items: seq<Item>): nat {
    if items == [] then 0
    else Stolen(Front(items)) +
         if Last(items).Got? && Misread(Front(items), Last(items).x) && Replay(Front(items)).errs.loss > 0 then 1 else 0
  }

  /** Late first arrivals that found no unreported loss to take back. */
  ghost function LateAtZero(items: seq<Item>): nat {
    if items == [] then 0
    else LateAtZero(Front(items)) +
         if Last(items).Got? && IdealKind(Front(items), Last(items).x) == Late && Replay(Front(items)).errs.loss == 0
         then 1 else 0
  }

  // ---------------------------------------------------------------------------
  // The ring holds the last 32 recorded numbers
  // ---------------------------------------------------------------------------

  /** Every number the ring receiver recorded, in order. */
  ghost function Recorded(items: seq<Item>): seq<int> {
    if items == [] then []
    else if Last(items).Got? && Classify(Replay(Front(items)).win, Last(items).x) != Duplicate
    then Recorded(Front(items)) + [Last(items).x]
    else Recorded(Front(items))
  }

  ghost predicate Holds(w: Window, log: seq<int>) {
    && w.Valid()
    && w.next == |log| % HISTORY
    && (forall j | 0 <= j < |log| && |log| - HISTORY <= j :: w.ring[j % HISTORY] == log[j])
    && (forall k | |log| <= k < HISTORY :: w.ring[k] == 0)
  }

  lemma {:induction false} PushHolds(w: Window, log: seq<int>, x: u32)
    requires Holds(w, log)
    ensures Holds(Push(w, x), log + [x])
  {
  }

  /** The one recent index that falls on slot k. */
  lemma SlotIndex(n: nat, k: nat) returns (j: nat)
    requires k < HISTORY && (n < HISTORY ==> k < n)
    ensures j < n && n - HISTORY <= j && j % HISTORY == k
  {
    j := if n < HISTORY then k else n - HISTORY + (k - n) % HISTORY;
  }

  lemma {:induction false} RingIsRecent(w: Window, log: seq<int>, x: u32)
    requires Holds(w, log) && x != 0 && x in w.ring
    ensures x in Recent(log) && x in log
  {
    var n := |log|;
    var k :| 0 <= k < HISTORY && w.ring[k] == x;
    var j := SlotIndex(n, k);
    assert log[j] == x;
    assert Recent(log)[if n <= HISTORY then j else j - (n - HISTORY)] == log[j];
  }

  lemma {:induction false} RecentIsRing(w: Window, log: seq<int>, x: u32)
    requires Holds(w, log) && x in Recent(log)
    ensures x in w.ring
  {
    var i :| 0 <= i < |Recent(log)| && Recent(log)[i] == x;
    var j := if |log| <= HISTORY then i else i + |log| - HISTORY;
    assert w.ring[j % HISTORY] == log[j] == x;
  }

  lemma {:induction false} InRing(w: Window, log: seq<int>, x: u32)
    requires Holds(w, log) && x != 0
    ensures x in w.ring <==> x in Recent(log)
    ensures x in w.ring ==> x in log
  {
    if x in w.ring { RingIsRecent(w, log, x); }
    if x in Recent(log) { RecentIsRing(w, log, x); }
  }

  lemma {:induction false} LegalFront(items: seq<Item>)
    requires items != [] && Legal(items)
    ensures Legal(Front(items))
    ensures Last(items).Got? ==> 1 <= Last(items).x < 0xFFFF_FFFF
  {
  }

  lemma {:induction false} TrackHolds(w: Window, log: seq<int>, x: u32)
    requires Holds(w, log) && x != 0
    ensures Holds(Track(w, x), if Classify(w, x) == Duplicate then log else log + [x])
    ensures Classify(w, x) == Duplicate ==> x in log
  {
    match Classify(w, x)
    case Advance(_) => PushHolds(w.(top := x), log, x);
    case Late => PushHolds(w, log, x);
    case Duplicate => InRing(w, log, x);
  }

  lemma {:induction false} TrackTop(w: Window, x: u32)
    requires w.Valid() && w.top < 0xFFFF_FFFF
    ensures Track(w, x).top == Max(w.top, x)
  {
  }

  /** The window follows the run: its top is the highest number, its ring the recent records. */
  lemma {:induction false} WindowFollows(items: seq<Item>)
    requires Legal(items)
    ensures Replay(items).win.top == Top(items) < 0xFFFF_FFFF
    ensures Holds(Replay(items).win, Recorded(items))
    ensures forall x :: x in Seen(items) <==> x in Recorded(items)
    ensures forall x | x in Seen(items) :: 1 <= x <= Top(items)
  {
    if items != [] {
      LegalFront(items);
      WindowFollows(Front(items));
      if Last(items).Got? {
        var w, log, x := Replay(Front(items)).win, Recorded(Front(items)), Last(items).x;
        TrackHolds(w, log, x);
        TrackTop(w, x);
      }
    }
  }

  // ---------------------------------------------------------------------------
  // Refinement of the ideal receiver
  // ---------------------------------------------------------------------------

  /** Against the ideal receiver the ring can be wrong in one way only: a repeat read as late.
      In particular a number not received before is never called a duplicate. */
  lemma {:induction false} ClassifyRefines(items: seq<Item>, x: u32)
    requires Legal(items) && 1 <= x < 0xFFFF_FFFF
    ensures Classify(Replay(items).win, x) == if Misread(items, x) then Late else IdealKind(items, x)
    ensures Classify(Replay(items).win, x) == Duplicate ==> x in Seen(items)
  {
    WindowFollows(items);
    InRing(Replay(items).win, Recorded(items), x);
  }

  lemma {:induction false} SeenUpToTop(items: seq<Item>)
    requires Legal(items)
    ensures Top(items) < 0xFFFF_FFFF
    ensures forall n | n in Seen(items) :: 1 <= n <= Top(items)
  {
    if items != [] {
      LegalFront(items);
      SeenUpToTop(Front(items));
    }
  }

  lemma {:induction false} GapGrows(seen: set<int>, top: int, x: int)
    requires top < x && (forall n | n in seen :: n <= top) && 0 <= top
    ensures |Range(1, x) - (seen + {x})| == |Range(1, top) - seen| + x - top - 1
  {
    assert Range(1, x) - (seen + {x}) == (Range(1, top) - seen) + Range(top + 1, x - 1);
  }

  lemma {:induction false} GapShrinks(seen: set<int>, top: int, x: int)
    requires 1 <= x <= top && x !in seen
    ensures |Range(1, top) - (seen + {x})| == |Range(1, top) - seen| - 1
  {
    assert Range(1, top) - (seen + {x}) == (Range(1, top) - seen) - {x};
  }

  /** How one datagram changes the number of missing ones. */
  lemma {:induction false} MissingStep(items: seq<Item>, x: u32)
    requires Legal(items) && 1 <= x < 0xFFFF_FFFF
    ensures var before, after := |Missing(items)|, |Missing(items + [Got(x)])|;
            match IdealKind(items, x)
            case Advance(gap) => after == before + gap
            case Duplicate => after == before
            case Late => after == before - 1
  {
    var items' := items + [Got(x)];
    assert Front(items') == items && Last(items') == Got(x);
    SeenUpToTop(items);
    match IdealKind(items, x)
    case Advance(_) => GapGrows(Seen(items), Top(items), x);
    case Duplicate => assert Seen(items') == Seen(items);
    case Late => GapShrinks(Seen(items), Top(items), x);
  }

  lemma {:induction false} ReplayStep(items: seq<Item>, x: u32)
    ensures var items', p := items + [Got(x)], Replay(items);
            && Replay(items').errs == Tally(p.errs, Classify(p.win, x))
            && Replay(items').reports == p.reports
            && Stolen(items') == Stolen(items) + (if Misread(items, x) && p.errs.loss > 0 then 1 else 0)
            && LateAtZero(items') == LateAtZero(items) + (if IdealKind(items, x) == Late && p.errs.loss == 0 then 1 else 0)
  {
  }

  lemma {:induction false} NoLossWrap(items: seq<Item>, x: u32)
    requires Legal(items) && 1 <= x < 0xFFFF_FFFF
    ensures |Missing(items + [Got(x)])| < 0xFFFF_FFFF
  {
  }

  /** The arithmetic of one datagram: the counter moves with the number of missing datagrams,
      except for a misread repeat and for a late arrival that finds the counter at zero. */
  lemma TallyBalance(e: SeqErrs, ideal: Kind, misread: bool, before: nat, after: nat)
    requires misread ==> ideal == Duplicate
    requires e.loss <= before && after < 0xFFFF_FFFF
    requires match ideal
             case Advance(gap) => after == before + gap
             case Duplicate => after == before
             case Late => after == before - 1
    ensures var loss' := Tally(e, if misread then Late else ideal).loss;
            && loss' <= after
            && loss' - e.loss + (if misread && e.loss > 0 then 1 else 0)
               == after - before + (if ideal == Late && e.loss == 0 then 1 else 0)
  {
  }

  /** One datagram keeps the balance between the loss counter and the missing numbers. */
  lemma {:induction false} BalanceStep(items: seq<Item>, x: u32)
    requires Legal(items) && 1 <= x < 0xFFFF_FFFF
    requires Replay(items).errs.loss <= |Missing(items)|
    ensures var items' := items + [Got(x)];
            var loss, loss' := Replay(items).errs.loss, Replay(items').errs.loss;
            && loss' <= |Missing(items')|
            && loss' - loss + Stolen(items') - Stolen(items)
               == |Missing(items')| - |Missing(items)| + LateAtZero(items') - LateAtZero(items)
            && Replay(items').reports == Replay(items).reports
  {
    ReplayStep(items, x);
    ClassifyRefines(items, x);
    MissingStep(items, x);
    NoLossWrap(items, x);
    SeenUpToTop(items);
    TallyBalance(Replay(items).errs, IdealKind(items, x), Misread(items, x),
                 |Missing(items)|, |Missing(items + [Got(x)])|);
  }

  /** Loss conservation over every run and every placement of reports: what was reported plus what
      is pending, plus what misread repeats took back, is what is truly missing plus the late
      arrivals that came after their loss was reported. No counter wraps on the way. */
  lemma {:induction false} LossConservation(items: seq<Item>)
    requires Legal(items)
    ensures var p := Replay(items);
            && SumLoss(p.reports) + p.errs.loss + Stolen(items) == |Missing(items)| + LateAtZero(items)
            && p.errs.loss <= |Missing(items)|
  {
    if items == [] {
      assert Missing(items) == {};
    } else {
      var before, item := Front(items), Last(items);
      assert items == before + [item];
      LegalFront(items);
      LossConservation(before);
      var p := Replay(before);
      match item {
        case Cut => assert Front(p.reports + [p.errs]) == p.reports;
        case Got(x) => BalanceStep(before, x);
      }
    }
  }

  lemma {:induction false} StolenAreMisread(items: seq<Item>)
    ensures Stolen(items) <= Misreads(items)
  {
    if items != [] { StolenAreMisread(Front(items)); }
  }

  lemma {:induction false} NoCutNoReport(items: seq<Item>)
    requires Cut !in items
    ensures Replay(items).reports == []
  {
    if items != [] { NoCutNoReport(Front(items)); }
  }

  /** Without a report in between, the loss counter is the true count up to the misread repeats. */
  lemma {:induction false} LossBounds(items: seq<Item>)
    requires Legal(items) && Cut !in items
    ensures |Missing(items)| - Misreads(items) <= Replay(items).errs.loss <= |Missing(items)|
  {
    LossConservation(items);
    StolenAreMisread(items);
    NoCutNoReport(items);
  }

  // ---------------------------------------------------------------------------
  // When the ring receiver is exact
  // ---------------------------------------------------------------------------

  lemma {:induction false} PrefixOf(items: seq<Item>, n: nat)
    requires n <= |items|
    ensures Legal(items) ==> Legal(items[..n])
    ensures Agrees(items) ==> Agrees(items[..n])
    ensures Windowed(items) ==> Windowed(items[..n])
  {
    forall i | 0 <= i < n
      ensures AgreesAt(items[..n], i) <==> AgreesAt(items, i)
      ensures WindowedAt(items[..n], i) <==> WindowedAt(items, i)
    {
      assert items[..n][..i] == items[..i];
    }
  }

  lemma {:induction false} IdealDuplicate(items: seq<Item>, x: u32)
    requires Legal(items)
    ensures IdealKind(items, x) == Duplicate <==> x in Seen(items)
  {
    SeenUpToTop(items);
  }

  lemma {:induction false} AgreeingRecords(items: seq<Item>)
    requires Legal(items) && Agrees(items)
    ensures Recorded(items) == Firsts(items)
  {
    hide Replay, Seen, Legal, Classify, IdealKind;
    if items != [] {
      var n := |items| - 1;
      PrefixOf(items, n);
      AgreeingRecords(items[..n]);
      if items[n].Got? {
        IdealDuplicate(items[..n], items[n].x);
        assert AgreesAt(items, n);
      }
    }
  }

  /** Whether x is classified as by the ideal receiver, after a run on which the two agreed. */
  lemma {:induction false} AgreementStep(items: seq<Item>, x: u32)
    requires Legal(items) && Agrees(items) && 1 <= x < 0xFFFF_FFFF
    ensures Classify(Replay(items).win, x) == IdealKind(items, x)
       <==> (x in Seen(items) ==> x in Recent(Firsts(items)))
  {
    AgreeingRecords(items);
    ClassifyRefines(items, x);
    WindowFollows(items);
    InRing(Replay(items).win, Recorded(items), x);
  }

  /** The ring receiver is exact on a run if and only if every repeat of the run is within the window. */
  lemma {:induction false} ExactIffWindowed(items: seq<Item>)
    requires Legal(items)
    ensures Agrees(items) <==> Windowed(items)
  {
    if items != [] {
      var n := |items| - 1;
      PrefixOf(items, n);
      ExactIffWindowed(items[..n]);
      if Agrees(items[..n]) {
        if items[n].Got? { AgreementStep(items[..n], items[n].x); }
        assert AgreesAt(items, n) <==> WindowedAt(items, n);
        ExtendRun(items);
      }
    }
  }

  lemma {:induction false} ExtendRun(items: seq<Item>)
    requires items != [] && Agrees(Front(items)) && Windowed(Front(items))
    ensures Agrees(items) <==> AgreesAt(items, |items| - 1)
    ensures Windowed(items) <==> WindowedAt(items, |items| - 1)
  {
    forall i | 0 <= i < |items| - 1
      ensures AgreesAt(items, i) && WindowedAt(items, i)
    {
      assert Front(items)[..i] == items[..i];
      assert AgreesAt(Front(items), i) && WindowedAt(Front(items), i);
    }
  }

  lemma {:induction false} WindowedNoMisread(items: seq<Item>)
    requires Legal(items) && Windowed(items)
    ensures Misreads(items) == Stolen(items) == 0
  {
    StolenAreMisread(items);
    if items != [] {
      var n := |items| - 1;
      PrefixOf(items, n);
      WindowedNoMisread(items[..n]);
      if items[n].Got? {
        ExactIffWindowed(items);
        assert AgreesAt(items, n);
        SeenUpToTop(items[..n]);
      }
    }
  }

  /** Within the window, reported plus pending loss is exactly what is missing plus what arrived
      after its loss was reported: a reported loss is never taken back. */
  lemma {:induction false} WindowedConservation(items: seq<Item>)
    requires Legal(items) && Windowed(items)
    ensures var p := Replay(items);
            SumLoss(p.reports) + p.errs.loss == |Missing(items)| + LateAtZero(items)
    ensures Cut !in items ==> Replay(items).errs.loss == |Missing(items)|
  {
    LossConservation(items);
    WindowedNoMisread(items);
    if Cut !in items { NoCutNoReport(items); }
  }

  /** A ring that has been filled holds no zero; before that its last slot still does. */
  lemma {:induction false} ZeroInRing(w: Window, log: seq<int>)
    requires Holds(w, log) && 0 !in log
    ensures 0 in w.ring <==> |log| < HISTORY
  {
    if |log| < HISTORY {
      assert w.ring[HISTORY - 1] == 0;
    } else {
      forall k | 0 <= k < HISTORY ensures w.ring[k] != 0 {
        var j := SlotIndex(|log|, k);
        assert w.ring[k] == log[j];
      }
    }
  }

  /** After any legal run, a number never received is called a duplicate if and only if it is 0 and
      fewer than 32 numbers have been recorded: the ring starts full of zeros. */
  lemma {:induction false} UnseenDuplicateIff(items: seq<Item>, x: u32)
    requires Legal(items) && x !in Seen(items)
    ensures Classify(Replay(items).win, x) == Duplicate <==> x == 0 && |Recorded(items)| < HISTORY
  {
    WindowFollows(items);
    var w, log := Replay(items).win, Recorded(items);
    if x == 0 { ZeroInRing(w, log); } else { InRing(w, log, x); }
  }

  /** In particular before anything was received. */
  lemma {:induction false} ZeroPassesForDuplicate()
    ensures Classify(Replay([]).win, 0) == Duplicate && 0 !in Seen([])
  {
    UnseenDuplicateIff([], 0);
  }

  /** Why 2^32 - 1 is not legal either: after it every number counts as advancing. */
  lemma LastNumberForgetsOrder(w: Window, x: u32)
    ensures w.top == 0xFFFF_FFFF <==> forall x: u32 :: Classify(w, x).Advance?
    ensures w.top == 0xFFFF_FFFF ==> Classify(w, x) == Advance(x)
  {
    if w.top != 0xFFFF_FFFF { assert !Classify(w, 0).Advance?; }
  }
}
