/** Free windows of a day (apps/planning-agent/src/yule_planning/schedule.py, `_available_windows`).

    Times are whole seconds on one timeline whose zero is midnight of the plan date. */
module Windows {
  import opened Sequences
  import opened Sorting

  const MINIMUM_FOCUS_BLOCK_MINUTES := 30
  const DAY_END := 23 * 3600

  /** A timed entry of the fixed schedule; `work` says that its title carries the work marker. */
  datatype Block = Block(start: int, end: int, work: bool)

  datatype Window = Window(start: int, end: int)

  function Max(a: int, b: int): int { if a < b then b else a }

  function Min(a: int, b: int): int { if b < a then b else a }

  /** Whole minutes, rounded down as Python's `//` does (also for a negative length). */
  function Minutes(w: Window): int { (w.end - w.start) / 60 }

  predicate Long(w: Window) {
    w.start < w.end && Minutes(w) >= MINIMUM_FOCUS_BLOCK_MINUTES
  }

  predicate StartsBefore(a: Block, b: Block) { a.start <= b.start }

  predicate Outside(b: Block, dayStart: int) {
    b.end <= dayStart || b.start >= DAY_END
  }

  /** What the sweep appends from `cursor` on, for events sorted by start. */
  function Sweep(sorted: seq<Block>, dayStart: int, cursor: int): seq<Window> {
    if sorted == [] then
      if Long(Window(cursor, DAY_END)) then [Window(cursor, DAY_END)] else []
    else if Outside(sorted[0], dayStart) then
      Sweep(sorted[1..], dayStart, cursor)
    else
      var gap := Window(cursor, Max(sorted[0].start, dayStart));
      (if Long(gap) then [gap] else [])
      + Sweep(sorted[1..], dayStart, Max(cursor, Min(sorted[0].end, DAY_END)))
  }

  function FreeWindows(schedule: seq<Block>, dayStart: int): seq<Window> {
    Sweep(StableSort(schedule, StartsBefore), dayStart, dayStart)
  }

  lemma SweepStep(done: seq<Window>, sorted: seq<Block>, dayStart: int, cursor: int)
    requires sorted != []
    ensures var gap := Window(cursor, Max(sorted[0].start, dayStart));
      done + Sweep(sorted, dayStart, cursor) ==
        if Outside(sorted[0], dayStart) then done + Sweep(sorted[1..], dayStart, cursor)
        else (if Long(gap) then done + [gap] else done)
             + Sweep(sorted[1..], dayStart, Max(cursor, Min(sorted[0].end, DAY_END)))
  {}

  method AvailableWindows(schedule: seq<Block>, dayStart: int) returns (windows: seq<Window>)
    ensures windows == FreeWindows(schedule, dayStart)
  {
    var cursor := dayStart;
    windows := [];
    var timed := StableSort(schedule, StartsBefore);
    for i := 0 to |timed|
      invariant windows + Sweep(timed[i..], dayStart, cursor) == FreeWindows(schedule, dayStart)
    {
      var b := timed[i];
      SweepStep(windows, timed[i..], dayStart, cursor);
      assert timed[i..][1..] == timed[i + 1..];
      if b.end <= dayStart || b.start >= DAY_END {
        continue;
      }
      var clippedStart := Max(b.start, dayStart);
      var clippedEnd := Min(b.end, DAY_END);
      if clippedStart > cursor && (clippedStart - cursor) / 60 >= MINIMUM_FOCUS_BLOCK_MINUTES {
        windows := windows + [Window(cursor, clippedStart)];
      }
      if clippedEnd > cursor {
        cursor := clippedEnd;
      }
    }
    if DAY_END > cursor && (DAY_END - cursor) / 60 >= MINIMUM_FOCUS_BLOCK_MINUTES {
      windows := windows + [Window(cursor, DAY_END)];
    }
  }

  // ---------------------------------------------------------------------------------------------
  // What the windows mean
  // ---------------------------------------------------------------------------------------------

  ghost predicate InDay(w: Window, dayStart: int) { dayStart <= w.start < w.end <= DAY_END }

  predicate Apart(b: Block, w: Window) { b.end <= w.start || w.end <= b.start }

  /** No event reaches into the window. */
  ghost predicate Clear(schedule: seq<Block>, w: Window) {
    forall b :: b in schedule ==> Apart(b, w)
  }

  ghost predicate Within(inner: Window, outer: Window) {
    outer.start <= inner.start && inner.end <= outer.end
  }

  ghost predicate Ordered(ws: seq<Window>) {
    forall i, j :: 0 <= i < j < |ws| ==> ws[i].end <= ws[j].start
  }

  ghost predicate Forward(schedule: seq<Block>) {
    forall b :: b in schedule ==> b.start <= b.end
  }

  ghost predicate PositiveLength(schedule: seq<Block>) {
    forall b :: b in schedule ==> b.start < b.end
  }

  /** Second `t` is taken by some event. */
  ghost predicate Busy(schedule: seq<Block>, t: int) {
    exists b :: b in schedule && b.start <= t < b.end
  }

  /** A stretch of the day without a busy second that no free second adjoins. */
  ghost predicate MaximalGap(schedule: seq<Block>, dayStart: int, w: Window) {
    && InDay(w, dayStart)
    && (forall t :: w.start <= t < w.end ==> !Busy(schedule, t))
    && (w.start == dayStart || Busy(schedule, w.start - 1))
    && (w.end == DAY_END || Busy(schedule, w.end))
  }

  // ---------------------------------------------------------------------------------------------
  // The sweep
  // ---------------------------------------------------------------------------------------------

  lemma StartsBeforePreorder()
    ensures Preorder(StartsBefore)
  {}

  /** `passed` holds the events swept so far: each is outside the day or ends by the cursor. */
  ghost predicate Swept(passed: seq<Block>, dayStart: int, cursor: int) {
    forall b :: b in passed ==> Outside(b, dayStart) || b.end <= cursor || DAY_END <= cursor
  }

  lemma {:induction false} SweepSound(passed: seq<Block>, rest: seq<Block>, dayStart: int, cursor: int)
    requires SortedBy(rest, StartsBefore) && dayStart <= cursor && Swept(passed, dayStart, cursor)
    ensures forall w :: w in Sweep(rest, dayStart, cursor) ==>
      InDay(w, dayStart) && Long(w) && cursor <= w.start && Clear(passed + rest, w)
    decreases rest
  {
    if rest != [] {
      var b := rest[0];
      var next := if Outside(b, dayStart) then cursor else Max(cursor, Min(b.end, DAY_END));
      assert passed + rest == (passed + [b]) + rest[1..];
      SweepSound(passed + [b], rest[1..], dayStart, next);
      var gap := Window(cursor, Max(b.start, dayStart));
      if !Outside(b, dayStart) && Long(gap) {
        forall e | e in passed + rest ensures Apart(e, gap) {
          if e in passed {
          } else {
            var k :| 0 <= k < |rest| && rest[k] == e;
            assert k == 0 || StartsBefore(rest[0], rest[k]);
          }
        }
      }
    }
  }

  lemma {:induction false} SweepComplete(rest: seq<Block>, dayStart: int, cursor: int, w: Window)
    requires InDay(w, dayStart) && Long(w) && cursor <= w.start && Clear(rest, w)
    ensures exists f :: f in Sweep(rest, dayStart, cursor) && Within(w, f)
  {
    if rest == [] {
      assert Within(w, Window(cursor, DAY_END));
    } else {
      var b := rest[0];
      assert b in rest;
      if Outside(b, dayStart) {
        SweepComplete(rest[1..], dayStart, cursor, w);
      } else if w.end <= b.start {
        assert Within(w, Window(cursor, Max(b.start, dayStart)));
      } else {
        var next := Max(cursor, Min(b.end, DAY_END));
        SweepComplete(rest[1..], dayStart, next, w);
        var f :| f in Sweep(rest[1..], dayStart, next) && Within(w, f);
        assert f in Sweep(rest, dayStart, cursor);
      }
    }
  }

  /** How far the first `n` events reach: the latest end of those in the day, at least its start. */
  function Reached(s: seq<Block>, n: nat, dayStart: int): int
    requires n <= |s|
  {
    if n == 0 then dayStart
    else if Outside(s[n - 1], dayStart) then Reached(s, n - 1, dayStart)
    else Max(Reached(s, n - 1, dayStart), Min(s[n - 1].end, DAY_END))
  }

  /** The stretch between the first `n` events and the next one, or the end of the day. */
  function Gap(s: seq<Block>, n: nat, dayStart: int): Window
    requires n <= |s|
  {
    Window(Reached(s, n, dayStart), if n == |s| then DAY_END else Max(s[n].start, dayStart))
  }

  /** The gap before event `n` is a window. */
  predicate Opens(s: seq<Block>, n: nat, dayStart: int) {
    n <= |s| && (n == |s| || !Outside(s[n], dayStart)) && Long(Gap(s, n, dayStart))
  }

  /** The events, from `n` on, before which a window lies; the length of the list stands for the end of
      the day. */
  function Openings(s: seq<Block>, n: nat, dayStart: int): (r: seq<nat>)
    requires n <= |s|
    ensures forall k :: k in r <==> n <= k && Opens(s, k, dayStart)
    ensures forall i :: 0 <= i < |r| ==> n <= r[i] <= |s|
    ensures forall i, j :: 0 <= i < j < |r| ==> r[i] < r[j]
    decreases |s| - n
  {
    var later := if n == |s| then [] else Openings(s, n + 1, dayStart);
    if Opens(s, n, dayStart) then [n] + later else later
  }

  function Gaps(s: seq<Block>, openings: seq<nat>, dayStart: int): (r: seq<Window>)
    requires forall i :: 0 <= i < |openings| ==> openings[i] <= |s|
    ensures |r| == |openings| && forall i :: 0 <= i < |r| ==> r[i] == Gap(s, openings[i], dayStart)
  {
    seq(|openings|, i requires 0 <= i < |openings| => Gap(s, openings[i], dayStart))
  }

  /** The sweep at event `n`: the gap before it, if that is a window, then the sweep from the next one. */
  lemma SweepAt(s: seq<Block>, n: nat, dayStart: int)
    requires n < |s|
    ensures Sweep(s[n..], dayStart, Reached(s, n, dayStart)) ==
      (if Opens(s, n, dayStart) then [Gap(s, n, dayStart)] else [])
      + Sweep(s[n + 1..], dayStart, Reached(s, n + 1, dayStart))
  {
    var rest := s[n..];
    assert rest[0] == s[n] && rest[1..] == s[n + 1..];
    var later := Sweep(rest[1..], dayStart, Reached(s, n + 1, dayStart));
    assert [] + later == later;
  }

  lemma GapsAt(s: seq<Block>, n: nat, dayStart: int)
    requires n <= |s|
    ensures Gaps(s, Openings(s, n, dayStart), dayStart) ==
      (if Opens(s, n, dayStart) then [Gap(s, n, dayStart)] else [])
      + if n == |s| then [] else Gaps(s, Openings(s, n + 1, dayStart), dayStart)
  {
    var later := if n == |s| then [] else Openings(s, n + 1, dayStart);
    assert Gaps(s, [n] + later, dayStart) == [Gap(s, n, dayStart)] + Gaps(s, later, dayStart);
  }

  lemma {:induction false} SweepIsGaps(s: seq<Block>, n: nat, dayStart: int)
    requires n <= |s|
    ensures Sweep(s[n..], dayStart, Reached(s, n, dayStart)) == Gaps(s, Openings(s, n, dayStart), dayStart)
    decreases |s| - n
  {
    GapsAt(s, n, dayStart);
    if n < |s| {
      SweepAt(s, n, dayStart);
      SweepIsGaps(s, n + 1, dayStart);
    }
  }

  lemma {:induction false} ReachedGrows(s: seq<Block>, m: nat, k: nat, dayStart: int)
    requires m <= k <= |s|
    ensures dayStart <= Reached(s, m, dayStart) <= Reached(s, k, dayStart)
    decreases k
  {
    if m < k {
      ReachedGrows(s, m, k - 1, dayStart);
    } else if m > 0 {
      ReachedGrows(s, m - 1, m - 1, dayStart);
    }
  }

  // ---------------------------------------------------------------------------------------------
  // Theorems
  // ---------------------------------------------------------------------------------------------

  /** For any events whatever (unsorted, overlapping, even ending before they start): every window is
      a stretch of the day of at least 30 minutes that no event reaches into. */
  lemma WindowsAreFree(schedule: seq<Block>, dayStart: int)
    ensures forall w :: w in FreeWindows(schedule, dayStart) ==>
      InDay(w, dayStart) && Long(w) && Clear(schedule, w)
  {
    StartsBeforePreorder();
    StableSortSorts(schedule, StartsBefore);
    SameElements(schedule, StartsBefore);
    var s := StableSort(schedule, StartsBefore);
    SweepSound([], s, dayStart, dayStart);
    assert [] + s == s;
  }

  /** For any events whatever, every free stretch of at least 30 minutes lies inside one window. */
  lemma WindowsLoseNothing(schedule: seq<Block>, dayStart: int, w: Window)
    requires InDay(w, dayStart) && Long(w) && Clear(schedule, w)
    ensures exists f :: f in FreeWindows(schedule, dayStart) && Within(w, f)
  {
    SameElements(schedule, StartsBefore);
    SweepComplete(StableSort(schedule, StartsBefore), dayStart, dayStart, w);
  }

  lemma FreeWindowsAreGaps(schedule: seq<Block>, dayStart: int)
    ensures var s := StableSort(schedule, StartsBefore);
      FreeWindows(schedule, dayStart) == Gaps(s, Openings(s, 0, dayStart), dayStart)
  {
    var s := StableSort(schedule, StartsBefore);
    SweepIsGaps(s, 0, dayStart);
    assert s[0..] == s;
  }

  /** For any events whatever, the windows come in order of their starts. */
  lemma WindowsStartInOrder(schedule: seq<Block>, dayStart: int)
    ensures var ws := FreeWindows(schedule, dayStart); forall i, j :: 0 <= i < j < |ws| ==> ws[i].start <= ws[j].start
  {
    var s := StableSort(schedule, StartsBefore);
    var ps := Openings(s, 0, dayStart);
    FreeWindowsAreGaps(schedule, dayStart);
    forall i, j | 0 <= i < j < |ps| ensures Reached(s, ps[i], dayStart) <= Reached(s, ps[j], dayStart) {
      ReachedGrows(s, ps[i], ps[j], dayStart);
    }
  }

  /** Every event that closes a window starts no later than the events have reached when any later
      window opens. */
  ghost predicate ClosesInTime(s: seq<Block>, dayStart: int) {
    forall m: nat, k: nat :: m < k && Opens(s, m, dayStart) && Opens(s, k, dayStart) ==>
      Max(s[m].start, dayStart) <= Reached(s, k, dayStart)
  }

  lemma OrderedGapsClose(s: seq<Block>, dayStart: int)
    requires Ordered(Gaps(s, Openings(s, 0, dayStart), dayStart))
    ensures ClosesInTime(s, dayStart)
  {
    var ps := Openings(s, 0, dayStart);
    var ws := Gaps(s, ps, dayStart);
    forall m: nat, k: nat | m < k && Opens(s, m, dayStart) && Opens(s, k, dayStart)
      ensures Max(s[m].start, dayStart) <= Reached(s, k, dayStart)
    {
      assert m in ps && k in ps;
      var i :| 0 <= i < |ps| && ps[i] == m;
      var j :| 0 <= j < |ps| && ps[j] == k;
      assert ws[i].end <= ws[j].start;
    }
  }

  lemma ClosingGapsOrdered(s: seq<Block>, dayStart: int)
    requires ClosesInTime(s, dayStart)
    ensures Ordered(Gaps(s, Openings(s, 0, dayStart), dayStart))
  {
    var ps := Openings(s, 0, dayStart);
    var ws := Gaps(s, ps, dayStart);
    forall i, j | 0 <= i < j < |ws| ensures ws[i].end <= ws[j].start {
      assert ps[i] in ps && ps[j] in ps;
    }
  }

  /** For any events whatever, the windows come in order and do not overlap exactly when the events, by
      start, close them in time. */
  lemma WindowsOrderedIff(schedule: seq<Block>, dayStart: int)
    ensures Ordered(FreeWindows(schedule, dayStart)) <==> ClosesInTime(StableSort(schedule, StartsBefore), dayStart)
  {
    var s := StableSort(schedule, StartsBefore);
    FreeWindowsAreGaps(schedule, dayStart);
    if Ordered(FreeWindows(schedule, dayStart)) { OrderedGapsClose(s, dayStart); }
    if ClosesInTime(s, dayStart) { ClosingGapsOrdered(s, dayStart); }
  }

  lemma ForwardClosesInTime(s: seq<Block>, dayStart: int)
    requires Forward(s)
    ensures ClosesInTime(s, dayStart)
  {
    forall m: nat, k: nat | m < k && Opens(s, m, dayStart) && Opens(s, k, dayStart)
      ensures Max(s[m].start, dayStart) <= Reached(s, k, dayStart)
    {
      assert s[m] in s;
      ReachedGrows(s, m, m, dayStart);
      ReachedGrows(s, m + 1, k, dayStart);
    }
  }

  /** In particular they do when no event ends before it starts. */
  lemma WindowsAreOrdered(schedule: seq<Block>, dayStart: int)
    requires Forward(schedule)
    ensures Ordered(FreeWindows(schedule, dayStart))
  {
    SameElements(schedule, StartsBefore);
    ForwardClosesInTime(StableSort(schedule, StartsBefore), dayStart);
    WindowsOrderedIff(schedule, dayStart);
  }

  /** An event that ends before it starts can make two windows overlap. */
  lemma InvertedEventOverlapsWindows()
    ensures var ws := FreeWindows([Block(36000, 32400, false)], 21600);
      |ws| == 2 && ws[0].end > ws[1].start
  {
    var b := Block(36000, 32400, false);
    assert StableSort([b], StartsBefore) == [b] by { assert StableSort<Block>([], StartsBefore) == []; }
    assert Sweep([], 21600, 32400) == [Window(32400, DAY_END)];
    assert [b][1..] == [];
  }

  lemma ClearBySeconds(schedule: seq<Block>, w: Window)
    requires PositiveLength(schedule) && w.start < w.end
    ensures Clear(schedule, w) <==> forall t :: w.start <= t < w.end ==> !Busy(schedule, t)
  {
    if forall t :: w.start <= t < w.end ==> !Busy(schedule, t) {
      forall b | b in schedule ensures Apart(b, w) {
        if !Apart(b, w) {
          assert Busy(schedule, Max(b.start, w.start));
        }
      }
    }
  }

  lemma WindowsMeetOnlyInThemselves(ws: seq<Window>, a: Window, b: Window)
    requires Ordered(ws) && a in ws && b in ws && Within(a, b) && a.start < a.end
    ensures a == b
  {
    var i :| 0 <= i < |ws| && ws[i] == a;
    var j :| 0 <= j < |ws| && ws[j] == b;
  }

  /** The windows are exactly the maximal event-free gaps of the day lasting at least 30 minutes. */
  lemma WindowsAreMaximalGaps(schedule: seq<Block>, dayStart: int, w: Window)
    requires PositiveLength(schedule)
    ensures w in FreeWindows(schedule, dayStart) <==> MaximalGap(schedule, dayStart, w) && Long(w)
  {
    var ws := FreeWindows(schedule, dayStart);
    WindowsAreFree(schedule, dayStart);
    WindowsAreOrdered(schedule, dayStart);
    if w in ws {
      ClearBySeconds(schedule, w);
      if w.start > dayStart && !Busy(schedule, w.start - 1) {
        NoWiderGap(schedule, dayStart, w, Window(w.start - 1, w.end));
      }
      if w.end < DAY_END && !Busy(schedule, w.end) {
        NoWiderGap(schedule, dayStart, w, Window(w.start, w.end + 1));
      }
    }
    if MaximalGap(schedule, dayStart, w) && Long(w) {
      ClearBySeconds(schedule, w);
      WindowsLoseNothing(schedule, dayStart, w);
      var f :| f in ws && Within(w, f);
      ClearBySeconds(schedule, f);
      assert f.start == w.start && f.end == w.end;
    }
  }

  lemma NoWiderGap(schedule: seq<Block>, dayStart: int, w: Window, wider: Window)
    requires PositiveLength(schedule) && w in FreeWindows(schedule, dayStart)
    requires Long(w) && InDay(wider, dayStart) && Within(w, wider)
    requires forall t :: wider.start <= t < wider.end ==> !Busy(schedule, t)
    ensures w == wider
  {
    var ws := FreeWindows(schedule, dayStart);
    WindowsAreOrdered(schedule, dayStart);
    ClearBySeconds(schedule, wider);
    WindowsLoseNothing(schedule, dayStart, wider);
    var f :| f in ws && Within(wider, f);
    WindowsMeetOnlyInThemselves(ws, w, f);
  }

  lemma OrderedWindowsByMembers(a: seq<Window>, b: seq<Window>)
    requires Ordered(a) && Ordered(b)
    requires forall w :: w in a ==> w.start < w.end
    requires forall w :: w in a <==> w in b
    ensures a == b
  {
    var le := (x: Window, y: Window) => x.start <= y.start && (x.start == y.start ==> x.end <= y.end);
    forall i, j | 0 <= i < j < |a| ensures a[i] != a[j] && le(a[i], a[j]) {
      assert a[i] in a && a[j] in a;
    }
    forall i, j | 0 <= i < j < |b| ensures b[i] != b[j] && le(b[i], b[j]) {
      assert b[i] in a && b[j] in a;
    }
    SameMembersSameMultiset(a, b);
    SortedPermutationUnique(a, b, le);
  }

  lemma WindowCarriesOver(s1: seq<Block>, s2: seq<Block>, dayStart: int, w: Window)
    requires Forward(s1) && w in FreeWindows(s1, dayStart)
    requires forall f :: f in FreeWindows(s1, dayStart) ==> Clear(s2, f)
    requires forall f :: f in FreeWindows(s2, dayStart) ==> Clear(s1, f)
    ensures w in FreeWindows(s2, dayStart)
  {
    WindowsAreFree(s1, dayStart);
    WindowsAreFree(s2, dayStart);
    WindowsAreOrdered(s1, dayStart);
    WindowsLoseNothing(s2, dayStart, w);
    var p :| p in FreeWindows(s2, dayStart) && Within(w, p);
    WindowsLoseNothing(s1, dayStart, p);
    var f :| f in FreeWindows(s1, dayStart) && Within(p, f);
    WindowsMeetOnlyInThemselves(FreeWindows(s1, dayStart), w, f);
  }

  /** Two schedules that leave each other's windows free have the same windows. */
  lemma SameWindows(s1: seq<Block>, s2: seq<Block>, dayStart: int)
    requires Forward(s1) && Forward(s2)
    requires forall f :: f in FreeWindows(s1, dayStart) ==> Clear(s2, f)
    requires forall f :: f in FreeWindows(s2, dayStart) ==> Clear(s1, f)
    ensures FreeWindows(s1, dayStart) == FreeWindows(s2, dayStart)
  {
    WindowsAreFree(s1, dayStart);
    WindowsAreOrdered(s1, dayStart);
    WindowsAreOrdered(s2, dayStart);
    forall w ensures w in FreeWindows(s1, dayStart) <==> w in FreeWindows(s2, dayStart) {
      if w in FreeWindows(s1, dayStart) { WindowCarriesOver(s1, s2, dayStart, w); }
      if w in FreeWindows(s2, dayStart) { WindowCarriesOver(s2, s1, dayStart, w); }
    }
    OrderedWindowsByMembers(FreeWindows(s1, dayStart), FreeWindows(s2, dayStart));
  }

  /** The windows depend only on which seconds are busy: order, overlaps and the number of the events
      do not matter. */
  lemma WindowsDependOnUnion(s1: seq<Block>, s2: seq<Block>, dayStart: int)
    requires PositiveLength(s1) && PositiveLength(s2)
    requires forall t :: Busy(s1, t) <==> Busy(s2, t)
    ensures FreeWindows(s1, dayStart) == FreeWindows(s2, dayStart)
  {
    WindowsAreFree(s1, dayStart);
    WindowsAreFree(s2, dayStart);
    forall f: Window | f.start < f.end ensures Clear(s1, f) <==> Clear(s2, f) {
      ClearBySeconds(s1, f);
      ClearBySeconds(s2, f);
    }
    SameWindows(s1, s2, dayStart);
  }

  /** At ten o'clock it splits the day in two. */
  lemma ZeroLengthEventSplitsWindow()
    ensures FreeWindows([Block(36000, 36000, false)], 21600) == [Window(21600, 36000), Window(36000, DAY_END)]
    ensures FreeWindows([], 21600) == [Window(21600, DAY_END)]
  {
    var b := Block(36000, 36000, false);
    assert StableSort<Block>([], StartsBefore) == [];
    assert StableSort([b], StartsBefore) == [b] by { assert StableSort([b][1..], StartsBefore) == []; }
    assert Sweep([b][1..], 21600, 36000) == [Window(36000, DAY_END)];
  }

  predicate TakesTime(b: Block) { b.start < b.end }

  /** The events of positive length. */
  function Positive(schedule: seq<Block>): (r: seq<Block>)
    ensures forall b :: b in r <==> b in schedule && TakesTime(b)
  {
    Select(schedule, TakesTime)
  }

  /** A zero-length event takes no time, yet it splits a window. It changes the windows exactly when
      one lies strictly inside a window of the remaining events. */
  lemma ZeroLengthEventsMatterIff(schedule: seq<Block>, dayStart: int)
    requires Forward(schedule)
    ensures FreeWindows(schedule, dayStart) == FreeWindows(Positive(schedule), dayStart)
      <==> forall b, w :: b in schedule && b.start == b.end && w in FreeWindows(Positive(schedule), dayStart)
                   ==> !(w.start < b.start < w.end)
  {
    var pos := Positive(schedule);
    var ws, ps := FreeWindows(schedule, dayStart), FreeWindows(pos, dayStart);
    WindowsAreFree(schedule, dayStart);
    WindowsAreFree(pos, dayStart);
    if forall b, w :: b in schedule && b.start == b.end && w in ps ==> !(w.start < b.start < w.end) {
      SameWindows(schedule, pos, dayStart);
    }
  }
}
