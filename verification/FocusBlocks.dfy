/** First-fit placement of tasks into windows, and the day's focus blocks
    (apps/planning-agent/src/yule_planning/schedule.py, `_assign_task_block` and `build_focus_blocks`). */
module FocusBlocks {
  import opened Sequences
  import opened Sorting
  import opened Windows
  import opened Wrappers

  const MAXIMUM_FOCUS_BLOCK_MINUTES := 120
  const MAXIMUM_TASKS := 6

  /** `company` says that the task carries the company-work category. */
  datatype Task = Task(id: string, estimatedMinutes: int, company: bool, flexible: bool)

  datatype Focus = Focus(start: int, end: int, task: Task)

  // ---------------------------------------------------------------------------------------------
  // One task
  // ---------------------------------------------------------------------------------------------

  /** The first window with at least 30 whole minutes left, or the number of windows. */
  function FirstFit(ws: seq<Window>): (i: nat)
    ensures i <= |ws|
    ensures forall k :: 0 <= k < i ==> Minutes(ws[k]) < MINIMUM_FOCUS_BLOCK_MINUTES
    ensures i < |ws| ==> Minutes(ws[i]) >= MINIMUM_FOCUS_BLOCK_MINUTES
  {
    if ws == [] || Minutes(ws[0]) >= MINIMUM_FOCUS_BLOCK_MINUTES then 0 else 1 + FirstFit(ws[1..])
  }

  function BlockMinutes(task: Task, w: Window): int {
    Min(Minutes(w), Min(Max(MINIMUM_FOCUS_BLOCK_MINUTES, task.estimatedMinutes), MAXIMUM_FOCUS_BLOCK_MINUTES))
  }

  /** The block cut from the front of a window. */
  function Carve(task: Task, w: Window): Focus {
    Focus(w.start, w.start + 60 * BlockMinutes(task, w), task)
  }

  /** Places one task and shrinks the window it came from in place; a refused task changes nothing. */
  method AssignTaskBlock(task: Task, windows: array<Window>) returns (block: Option<Focus>)
    modifies windows
    ensures var ws := old(windows[..]);
      var i := FirstFit(ws);
      if i == |ws| then
        block == None && windows[..] == ws
      else
        && block == Some(Carve(task, ws[i]))
        && windows[..] == ws[i := Window(Carve(task, ws[i]).end, ws[i].end)]
  {
    for index := 0 to windows.Length
      invariant windows[..] == old(windows[..])
      invariant forall k :: 0 <= k < index ==> Minutes(windows[k]) < MINIMUM_FOCUS_BLOCK_MINUTES
    {
      var w := windows[index];
      var duration := (w.end - w.start) / 60;
      if duration < MINIMUM_FOCUS_BLOCK_MINUTES {
        continue;
      }
      var wanted := Max(MINIMUM_FOCUS_BLOCK_MINUTES, task.estimatedMinutes);
      var minutes := Min(duration, Min(wanted, MAXIMUM_FOCUS_BLOCK_MINUTES));
      var blockEnd := w.start + 60 * minutes;
      windows[index] := Window(blockEnd, w.end);
      return Some(Focus(w.start, blockEnd, task));
    }
    return None;
  }

  // ---------------------------------------------------------------------------------------------
  // A list of tasks over a pool of windows
  // ---------------------------------------------------------------------------------------------

  /** A placed block and the window it was cut from. */
  datatype Placed = Placed(window: nat, focus: Focus)

  datatype Allotment = Allotment(placed: seq<Placed>, rest: seq<Window>)

  function Allot(tasks: seq<Task>, ws: seq<Window>): (r: Allotment)
    ensures |r.rest| == |ws|
  {
    if tasks == [] then Allotment([], ws)
    else
      var i := FirstFit(ws);
      if i == |ws| then Allot(tasks[1..], ws)
      else
        var b := Carve(tasks[0], ws[i]);
        var later := Allot(tasks[1..], ws[i := Window(b.end, ws[i].end)]);
        Allotment([Placed(i, b)] + later.placed, later.rest)
  }

  function Blocks(placed: seq<Placed>): (r: seq<Focus>)
    ensures |r| == |placed| && forall i :: 0 <= i < |r| ==> r[i] == placed[i].focus
  {
    seq(|placed|, i requires 0 <= i < |placed| => placed[i].focus)
  }

  method AllotTasks(tasks: seq<Task>, windows: array<Window>) returns (blocks: seq<Focus>)
    modifies windows
    ensures var a := Allot(tasks, old(windows[..])); blocks == Blocks(a.placed) && windows[..] == a.rest
  {
    blocks := [];
    ghost var placed: seq<Placed> := [];
    for i := 0 to |tasks|
      invariant blocks == Blocks(placed)
      invariant Allot(tasks, old(windows[..]))
        == Allotment(placed + Allot(tasks[i..], windows[..]).placed, Allot(tasks[i..], windows[..]).rest)
    {
      assert tasks[i..][1..] == tasks[i + 1..];
      ghost var k := FirstFit(windows[..]);
      var slot := AssignTaskBlock(tasks[i], windows);
      match slot {
        case None =>
        case Some(b) =>
          blocks := blocks + [b];
          placed := placed + [Placed(k, b)];
      }
    }
  }

  /** Minutes of the blocks cut from window `i`. */
  function MinutesFrom(placed: seq<Placed>, i: nat): int {
    if placed == [] then 0
    else (if placed[0].window == i then (placed[0].focus.end - placed[0].focus.start) / 60 else 0)
         + MinutesFrom(placed[1..], i)
  }

  lemma CarveFits(task: Task, w: Window)
    requires Minutes(w) >= MINIMUM_FOCUS_BLOCK_MINUTES
    ensures var b := Carve(task, w);
      && b.start == w.start && b.end <= w.end
      && b.end - b.start == 60 * BlockMinutes(task, w)
      && MINIMUM_FOCUS_BLOCK_MINUTES <= BlockMinutes(task, w) <= MAXIMUM_FOCUS_BLOCK_MINUTES
      && Minutes(Window(b.end, w.end)) == Minutes(w) - BlockMinutes(task, w)
  {}

  ghost predicate FocusSized(b: Focus) {
    60 * MINIMUM_FOCUS_BLOCK_MINUTES <= b.end - b.start <= 60 * MAXIMUM_FOCUS_BLOCK_MINUTES
  }

  /** The block was cut out of what its window lost. */
  ghost predicate CutFrom(p: Placed, before: seq<Window>, after: seq<Window>)
    requires |before| == |after|
  {
    p.window < |before| && before[p.window].start <= p.focus.start
    && p.focus.end <= after[p.window].start && after[p.window].start <= before[p.window].end
  }

  /** The round after the first task was placed. */
  function Shrunk(task: Task, ws: seq<Window>): (r: seq<Window>)
    requires FirstFit(ws) < |ws|
    ensures |r| == |ws|
  {
    var i := FirstFit(ws);
    ws[i := Window(Carve(task, ws[i]).end, ws[i].end)]
  }

  lemma {:induction false} AllotKeepsWindow(tasks: seq<Task>, ws: seq<Window>, i: nat)
    requires i < |ws|
    ensures var w := Allot(tasks, ws).rest[i];
      w.end == ws[i].end && w.start >= ws[i].start && (w == ws[i] || w.start <= ws[i].end)
    decreases tasks
  {
    if tasks != [] {
      var n := FirstFit(ws);
      if n == |ws| {
        AllotKeepsWindow(tasks[1..], ws, i);
      } else {
        CarveFits(tasks[0], ws[n]);
        AllotKeepsWindow(tasks[1..], Shrunk(tasks[0], ws), i);
      }
    }
  }

  /** Time is conserved window by window: what a window has lost is exactly the blocks cut from it. */
  lemma {:induction false} AllotConserves(tasks: seq<Task>, ws: seq<Window>, i: nat)
    requires i < |ws|
    ensures var a := Allot(tasks, ws); a.rest[i].start - ws[i].start == 60 * MinutesFrom(a.placed, i)
    decreases tasks
  {
    if tasks != [] {
      var n := FirstFit(ws);
      if n == |ws| {
        AllotConserves(tasks[1..], ws, i);
      } else {
        CarveFits(tasks[0], ws[n]);
        AllotConserves(tasks[1..], Shrunk(tasks[0], ws), i);
        assert Allot(tasks, ws).placed[1..] == Allot(tasks[1..], Shrunk(tasks[0], ws)).placed;
      }
    }
  }

  /** Every block lasts 30 to 120 minutes and is cut from the front part its window loses. */
  lemma {:induction false} AllotCuts(tasks: seq<Task>, ws: seq<Window>, k: nat)
    requires k < |Allot(tasks, ws).placed|
    ensures var a := Allot(tasks, ws); FocusSized(a.placed[k].focus) && CutFrom(a.placed[k], ws, a.rest)
    decreases tasks
  {
    var n := FirstFit(ws);
    if n == |ws| {
      AllotCuts(tasks[1..], ws, k);
    } else {
      CarveFits(tasks[0], ws[n]);
      var shrunk := Shrunk(tasks[0], ws);
      var a, later := Allot(tasks, ws), Allot(tasks[1..], shrunk);
      assert a == Allotment([Placed(n, Carve(tasks[0], ws[n]))] + later.placed, later.rest);
      if k == 0 {
        AllotKeepsWindow(tasks[1..], shrunk, n);
      } else {
        AllotCuts(tasks[1..], shrunk, k - 1);
        assert a.placed[k] == later.placed[k - 1];
        assert CutFrom(later.placed[k - 1], shrunk, later.rest);
      }
    }
  }

  /** Two blocks of one window follow each other. */
  lemma {:induction false} AllotFollows(tasks: seq<Task>, ws: seq<Window>, j: nat, k: nat)
    requires j < k < |Allot(tasks, ws).placed|
    requires Allot(tasks, ws).placed[j].window == Allot(tasks, ws).placed[k].window
    ensures Allot(tasks, ws).placed[j].focus.end <= Allot(tasks, ws).placed[k].focus.start
    decreases tasks
  {
    var n := FirstFit(ws);
    if n == |ws| {
      AllotFollows(tasks[1..], ws, j, k);
    } else {
      var shrunk := Shrunk(tasks[0], ws);
      if j == 0 {
        AllotCuts(tasks[1..], shrunk, k - 1);
      } else {
        AllotFollows(tasks[1..], shrunk, j - 1, k - 1);
      }
    }
  }

  /** The estimate of a task, at least 30 and at most 120 minutes. */
  function Wanted(task: Task): int {
    if task.estimatedMinutes < MINIMUM_FOCUS_BLOCK_MINUTES then MINIMUM_FOCUS_BLOCK_MINUTES
    else if task.estimatedMinutes > MAXIMUM_FOCUS_BLOCK_MINUTES then MAXIMUM_FOCUS_BLOCK_MINUTES
    else task.estimatedMinutes
  }

  lemma {:induction false} ExhaustedStays(tasks: seq<Task>, ws: seq<Window>, i: nat)
    requires i < |ws| && Minutes(ws[i]) < MINIMUM_FOCUS_BLOCK_MINUTES
    ensures Allot(tasks, ws).rest[i] == ws[i]
    decreases tasks
  {
    if tasks != [] {
      var n := FirstFit(ws);
      ExhaustedStays(tasks[1..], if n == |ws| then ws else Shrunk(tasks[0], ws), i);
    }
  }

  /** A block is as long as its task wants, and shorter only when it uses up its window to the last
      whole minute. */
  lemma {:induction false} AllotGivesWanted(tasks: seq<Task>, ws: seq<Window>, k: nat)
    requires k < |Allot(tasks, ws).placed|
    ensures var a := Allot(tasks, ws); var b := a.placed[k].focus;
      && b.end - b.start <= 60 * Wanted(b.task)
      && a.placed[k].window < |ws|
      && (b.end - b.start == 60 * Wanted(b.task) || Minutes(a.rest[a.placed[k].window]) == 0)
    decreases tasks
  {
    var n := FirstFit(ws);
    if n == |ws| {
      AllotGivesWanted(tasks[1..], ws, k);
    } else {
      CarveFits(tasks[0], ws[n]);
      var shrunk := Shrunk(tasks[0], ws);
      var a, later := Allot(tasks, ws), Allot(tasks[1..], shrunk);
      assert a == Allotment([Placed(n, Carve(tasks[0], ws[n]))] + later.placed, later.rest);
      if k > 0 {
        AllotGivesWanted(tasks[1..], shrunk, k - 1);
        assert a.placed[k] == later.placed[k - 1];
      } else if BlockMinutes(tasks[0], ws[n]) < Wanted(tasks[0]) {
        ExhaustedStays(tasks[1..], shrunk, n);
      }
    }
  }

  /** What is cut from a window stays within the minutes reported for it exactly when the window does
      not end before it starts. */
  lemma WithinReportedMinutesIff(tasks: seq<Task>, ws: seq<Window>, i: nat)
    requires i < |ws|
    ensures MinutesFrom(Allot(tasks, ws).placed, i) <= Minutes(ws[i]) <==> ws[i].start <= ws[i].end
  {
    AllotConserves(tasks, ws, i);
    AllotKeepsWindow(tasks, ws, i);
    if ws[i].start > ws[i].end { assert Allot(tasks, ws).rest[i] == ws[i]; }
  }

  /** First-fit never skips priority: the tasks given a slot are a prefix of the tasks offered, and
      when one is refused no window with 30 minutes is left. */
  lemma {:induction false} AllotServesPrefix(tasks: seq<Task>, ws: seq<Window>)
    ensures var a := Allot(tasks, ws);
      && |a.placed| <= |tasks|
      && (forall k :: 0 <= k < |a.placed| ==> a.placed[k].focus.task == tasks[k])
      && (|a.placed| < |tasks| ==>
            forall i :: 0 <= i < |ws| ==> Minutes(a.rest[i]) < MINIMUM_FOCUS_BLOCK_MINUTES)
  {
    if tasks != [] {
      var i := FirstFit(ws);
      if i == |ws| {
        AllotRefusesAll(tasks, ws);
      } else {
        AllotServesPrefix(tasks[1..], ws[i := Window(Carve(tasks[0], ws[i]).end, ws[i].end)]);
      }
    }
  }

  lemma {:induction false} AllotRefusesAll(tasks: seq<Task>, ws: seq<Window>)
    requires FirstFit(ws) == |ws|
    ensures Allot(tasks, ws) == Allotment([], ws)
  {
    if tasks != [] { AllotRefusesAll(tasks[1..], ws); }
  }

  /** Windows are used in index order, none below `from`. */
  ghost predicate MovesForward(placed: seq<Placed>, from: nat, count: nat) {
    && (forall k :: 0 <= k < |placed| ==> from <= placed[k].window < count)
    && (forall j, k :: 0 <= j < k < |placed| ==> placed[j].window <= placed[k].window)
  }

  /** Slots are handed out window by window: once a window has been passed over it stays exhausted. */
  lemma {:induction false} AllotMovesForward(tasks: seq<Task>, ws: seq<Window>)
    ensures MovesForward(Allot(tasks, ws).placed, FirstFit(ws), |ws|)
  {
    if tasks != [] {
      var i := FirstFit(ws);
      if i == |ws| {
        AllotRefusesAll(tasks, ws);
      } else {
        CarveFits(tasks[0], ws[i]);
        var shrunk := ws[i := Window(Carve(tasks[0], ws[i]).end, ws[i].end)];
        AllotMovesForward(tasks[1..], shrunk);
        assert forall n :: 0 <= n < i ==> Minutes(shrunk[n]) < MINIMUM_FOCUS_BLOCK_MINUTES;
        assert i <= FirstFit(shrunk);
        var a, later := Allot(tasks, ws).placed, Allot(tasks[1..], shrunk).placed;
        assert a == [Placed(i, Carve(tasks[0], ws[i]))] + later;
      }
    }
  }

  predicate Usable(w: Window) { Minutes(w) >= MINIMUM_FOCUS_BLOCK_MINUTES }

  /** Where the whole minutes of a window end. */
  function WholeEnd(w: Window): int { w.start + 60 * Minutes(w) }

  /** Two windows a first-fit round can both cut from do not overlap in their whole minutes. */
  ghost predicate NoClash(a: Window, b: Window) {
    Usable(a) && Usable(b) ==> WholeEnd(a) <= b.start || WholeEnd(b) <= a.start
  }

  ghost predicate UsableDisjoint(ws: seq<Window>) {
    forall i, j :: 0 <= i < j < |ws| ==> NoClash(ws[i], ws[j])
  }

  predicate BlocksApart(a: Focus, b: Focus) { a.end <= b.start || b.end <= a.start }

  ghost predicate PairwiseApart(bs: seq<Focus>) { Pairwise(bs, BlocksApart) }

  ghost predicate InSomeWindow(b: Focus, ws: seq<Window>) {
    exists i :: 0 <= i < |ws| && ws[i].start <= b.start && b.end <= ws[i].end
  }

  lemma AllotFits(tasks: seq<Task>, ws: seq<Window>, k: nat)
    requires k < |Allot(tasks, ws).placed|
    ensures var p := Allot(tasks, ws).placed[k];
      && p.window < |ws| && Usable(ws[p.window])
      && ws[p.window].start <= p.focus.start && p.focus.end <= WholeEnd(ws[p.window]) <= ws[p.window].end
      && FocusSized(p.focus) && p.focus.task in tasks
  {
    AllotCuts(tasks, ws, k);
    AllotServesPrefix(tasks, ws);
    var a := Allot(tasks, ws);
    AllotKeepsWindow(tasks, ws, a.placed[k].window);
    AllotConserves(tasks, ws, a.placed[k].window);
    assert a.placed[k].focus.task == tasks[k];
  }

  lemma AllotIsSafe(tasks: seq<Task>, ws: seq<Window>)
    ensures forall b :: b in Blocks(Allot(tasks, ws).placed) ==> FocusSized(b) && InSomeWindow(b, ws) && b.task in tasks
  {
    var bs := Blocks(Allot(tasks, ws).placed);
    forall b | b in bs ensures FocusSized(b) && InSomeWindow(b, ws) && b.task in tasks {
      var k :| 0 <= k < |bs| && bs[k] == b;
      AllotFits(tasks, ws, k);
    }
  }

  lemma AllotIsApart(tasks: seq<Task>, ws: seq<Window>)
    requires UsableDisjoint(ws)
    ensures PairwiseApart(Blocks(Allot(tasks, ws).placed))
  {
    var a := Allot(tasks, ws);
    forall j, k | 0 <= j < k < |a.placed| ensures BlocksApart(a.placed[j].focus, a.placed[k].focus) {
      AllotFits(tasks, ws, j);
      AllotFits(tasks, ws, k);
      if a.placed[j].window == a.placed[k].window { AllotFollows(tasks, ws, j, k); }
      var u, v := a.placed[j].window, a.placed[k].window;
      if u < v {
        assert NoClash(ws[u], ws[v]);
      } else if v < u {
        assert NoClash(ws[v], ws[u]);
      }
    }
  }

  // ---------------------------------------------------------------------------------------------
  // When a pool can be double-booked
  // ---------------------------------------------------------------------------------------------

  /** These tasks get slots that do not overlap. */
  ghost predicate SafeFor(ws: seq<Window>, tasks: seq<Task>) {
    PairwiseApart(Blocks(Allot(tasks, ws).placed))
  }

  ghost predicate StartsSorted(ws: seq<Window>) {
    forall i, j :: 0 <= i < j < |ws| ==> ws[i].start <= ws[j].start
  }

  /** The fewest blocks that take so many minutes out of a window. */
  function BlocksFor(minutes: int): int { (minutes + MAXIMUM_FOCUS_BLOCK_MINUTES - 1) / MAXIMUM_FOCUS_BLOCK_MINUTES }

  /** The minutes that must be gone from window `k` so that it is passed over; from window `i`, also so
      that it is filled past the start of window `j`. */
  function MustGo(ws: seq<Window>, i: nat, j: nat, k: nat): int
    requires j < |ws| && k < |ws|
  {
    var enough := Minutes(ws[k]) - MINIMUM_FOCUS_BLOCK_MINUTES + 1;
    if k == i then Max(enough, (ws[j].start - ws[k].start) / 60 + 1) else enough
  }

  function BlocksIn(ws: seq<Window>, i: nat, j: nat, k: nat): int
    requires j < |ws| && k < |ws|
  {
    if Usable(ws[k]) then BlocksFor(MustGo(ws, i, j, k)) else 0
  }

  function BlocksBefore(ws: seq<Window>, i: nat, j: nat, k: nat): int
    requires j < |ws| && k <= |ws|
  {
    if k == 0 then 0 else BlocksBefore(ws, i, j, k - 1) + BlocksIn(ws, i, j, k - 1)
  }

  /** The fewest tasks that fill window `i` past the start of window `j`, use up every window before `j`
      and put one block into `j`. */
  function Fewest(ws: seq<Window>, i: nat, j: nat): int
    requires j < |ws|
  {
    BlocksBefore(ws, i, j, j) + 1
  }

  /** Two windows clash only if more than `n` tasks are needed to reach the clash. */
  ghost predicate Uncrowded(ws: seq<Window>, n: nat) {
    forall i, j :: 0 <= i < j < |ws| && !NoClash(ws[i], ws[j]) ==> Fewest(ws, i, j) > n
  }

  // ---- A crossing takes the fewest tasks, or more

  function CountFrom(placed: seq<Placed>, k: nat): nat {
    if placed == [] then 0 else (if placed[0].window == k then 1 else 0) + CountFrom(placed[1..], k)
  }

  function CountBelow(placed: seq<Placed>, k: nat): nat {
    if placed == [] then 0 else (if placed[0].window < k then 1 else 0) + CountBelow(placed[1..], k)
  }

  lemma {:induction false} CountBelowNext(placed: seq<Placed>, k: nat)
    ensures CountBelow(placed, k + 1) == CountBelow(placed, k) + CountFrom(placed, k)
  {
    if placed != [] { CountBelowNext(placed[1..], k); }
  }

  lemma {:induction false} CountBelowMisses(placed: seq<Placed>, k: nat, b: nat)
    requires b < |placed| && placed[b].window >= k
    ensures CountBelow(placed, k) < |placed|
  {
    CountBelowBound(placed[1..], k);
    if b > 0 { CountBelowMisses(placed[1..], k, b - 1); }
  }

  lemma {:induction false} CountBelowBound(placed: seq<Placed>, k: nat)
    ensures CountBelow(placed, k) <= |placed|
  {
    if placed != [] { CountBelowBound(placed[1..], k); }
  }

  lemma {:induction false} MinutesByCount(placed: seq<Placed>, k: nat)
    requires forall p :: p in placed ==> FocusSized(p.focus)
    ensures MinutesFrom(placed, k) <= MAXIMUM_FOCUS_BLOCK_MINUTES * CountFrom(placed, k)
  {
    if placed != [] {
      assert placed[0] in placed;
      MinutesByCount(placed[1..], k);
    }
  }

  /** A window before one that was cut from is used up. */
  lemma {:induction false} PassedIsUsedUp(tasks: seq<Task>, ws: seq<Window>, b: nat, k: nat)
    requires b < |Allot(tasks, ws).placed| && k < Allot(tasks, ws).placed[b].window
    ensures k < |ws| && Minutes(Allot(tasks, ws).rest[k]) < MINIMUM_FOCUS_BLOCK_MINUTES
    decreases tasks
  {
    var n := FirstFit(ws);
    if n == |ws| {
      PassedIsUsedUp(tasks[1..], ws, b, k);
    } else if b == 0 {
      ExhaustedStays(tasks[1..], Shrunk(tasks[0], ws), k);
    } else {
      PassedIsUsedUp(tasks[1..], Shrunk(tasks[0], ws), b - 1, k);
    }
  }

  /** Block `a` of one window reaches past the start of a later window, from which block `b` is cut. */
  ghost predicate Crosses(tasks: seq<Task>, ws: seq<Window>, a: nat, b: nat) {
    var placed := Allot(tasks, ws).placed;
    && a < |placed| && b < |placed| && placed[a].window < placed[b].window < |ws|
    && placed[a].focus.end > ws[placed[b].window].start
  }

  /** Minutes gone from a window took at least the fewest blocks. */
  lemma MinutesTake(tasks: seq<Task>, ws: seq<Window>, k: nat, minutes: int)
    requires k < |ws| && minutes <= MinutesFrom(Allot(tasks, ws).placed, k)
    ensures BlocksFor(minutes) <= CountFrom(Allot(tasks, ws).placed, k)
  {
    var placed := Allot(tasks, ws).placed;
    forall p | p in placed ensures FocusSized(p.focus) {
      var x :| 0 <= x < |placed| && placed[x] == p;
      AllotCuts(tasks, ws, x);
    }
    MinutesByCount(placed, k);
  }

  lemma CrossingTakes(tasks: seq<Task>, ws: seq<Window>, a: nat, b: nat, k: nat)
    requires Crosses(tasks, ws, a, b) && k < Allot(tasks, ws).placed[b].window
    ensures var placed := Allot(tasks, ws).placed;
      BlocksIn(ws, placed[a].window, placed[b].window, k) <= CountFrom(placed, k)
  {
    var r := Allot(tasks, ws);
    AllotConserves(tasks, ws, k);
    AllotKeepsWindow(tasks, ws, k);
    PassedIsUsedUp(tasks, ws, b, k);
    AllotCuts(tasks, ws, a);
    MinutesTake(tasks, ws, k, MustGo(ws, r.placed[a].window, r.placed[b].window, k));
  }

  lemma {:induction false} CrossingTakesBefore(tasks: seq<Task>, ws: seq<Window>, a: nat, b: nat, k: nat)
    requires Crosses(tasks, ws, a, b) && k <= Allot(tasks, ws).placed[b].window
    ensures var placed := Allot(tasks, ws).placed;
      BlocksBefore(ws, placed[a].window, placed[b].window, k) <= CountBelow(placed, k)
  {
    if k > 0 {
      CrossingTakesBefore(tasks, ws, a, b, k - 1);
      CrossingTakes(tasks, ws, a, b, k - 1);
      CountBelowNext(Allot(tasks, ws).placed, k - 1);
    }
  }

  lemma {:induction false} CrossingTakesFewest(tasks: seq<Task>, ws: seq<Window>, a: nat, b: nat)
    requires Crosses(tasks, ws, a, b) && StartsSorted(ws)
    ensures var placed := Allot(tasks, ws).placed; var i, j := placed[a].window, placed[b].window;
      !NoClash(ws[i], ws[j]) && Fewest(ws, i, j) <= |tasks|
  {
    var placed := Allot(tasks, ws).placed;
    AllotFits(tasks, ws, a);
    AllotFits(tasks, ws, b);
    AllotServesPrefix(tasks, ws);
    CrossingTakesBefore(tasks, ws, a, b, placed[b].window);
    CountBelowMisses(placed, placed[b].window, b);
  }

  // ---- The fewest tasks reach it

  /** How much of a window with `left` minutes the next block takes, when `go` minutes must go. */
  function FillMinutes(left: int, go: int): int {
    if left <= MAXIMUM_FOCUS_BLOCK_MINUTES then left
    else if left < MAXIMUM_FOCUS_BLOCK_MINUTES + MINIMUM_FOCUS_BLOCK_MINUTES && go > MAXIMUM_FOCUS_BLOCK_MINUTES then
      left - MINIMUM_FOCUS_BLOCK_MINUTES
    else MAXIMUM_FOCUS_BLOCK_MINUTES
  }

  /** Taking blocks this way, each is one of the fewest that are needed. */
  lemma FillCounts(left: int, go: int)
    requires MINIMUM_FOCUS_BLOCK_MINUTES <= left && 1 <= go <= left
    ensures var taken := FillMinutes(left, go);
      && MINIMUM_FOCUS_BLOCK_MINUTES <= taken <= MAXIMUM_FOCUS_BLOCK_MINUTES && taken <= left
      && (go <= taken ==> BlocksFor(go) == 1)
      && (go > taken ==>
            left - taken >= MINIMUM_FOCUS_BLOCK_MINUTES && BlocksFor(go - taken) == BlocksFor(go) - 1)
  {}

  function FillTask(ws: seq<Window>, i: nat, j: nat, k: nat, company: bool): Task
    requires j < |ws| && k < |ws|
  {
    Task("", FillMinutes(Minutes(ws[k]), MustGo(ws, i, j, k)), company, false)
  }

  /** Tasks that fill the windows up to `j`, within `rounds` blocks. */
  function FillTasks(ws: seq<Window>, i: nat, j: nat, rounds: nat, company: bool): seq<Task>
    requires j < |ws|
    decreases rounds
  {
    var n := FirstFit(ws);
    if rounds == 0 || n == |ws| then []
    else
      var t := FillTask(ws, i, j, n, company);
      [t] + if n >= j then [] else FillTasks(Shrunk(t, ws), i, j, rounds - 1, company)
  }

  lemma {:induction false} FillTasksAre(ws: seq<Window>, i: nat, j: nat, rounds: nat, company: bool)
    requires j < |ws|
    ensures var ts := FillTasks(ws, i, j, rounds, company);
      |ts| <= rounds && forall t :: t in ts ==> t.company == company && !t.flexible
    decreases rounds
  {
    var n := FirstFit(ws);
    if rounds > 0 && n < |ws| {
      var t := FillTask(ws, i, j, n, company);
      var later := if n >= j then [] else FillTasks(Shrunk(t, ws), i, j, rounds - 1, company);
      if n < j { FillTasksAre(Shrunk(t, ws), i, j, rounds - 1, company); }
      assert FillTasks(ws, i, j, rounds, company) == [t] + later;
    }
  }

  lemma {:induction false} BlocksBeforeUpdate(ws: seq<Window>, i: nat, j: nat, n: nat, w: Window, k: nat)
    requires n < j < |ws| && k <= |ws|
    ensures var r := ws[n := w];
      BlocksBefore(r, i, j, k) ==
        BlocksBefore(ws, i, j, k) + if n < k then BlocksIn(r, i, j, n) - BlocksIn(ws, i, j, n) else 0
  {
    if k > 0 { BlocksBeforeUpdate(ws, i, j, n, w, k - 1); }
  }

  /** Window `i` can be filled past the start of window `j`, or has been. */
  ghost predicate CanCross(ws: seq<Window>, i: nat, j: nat)
    requires i < |ws| && j < |ws|
  {
    ws[i].start > ws[j].start || (Usable(ws[i]) && ws[j].start < WholeEnd(ws[i]))
  }

  /** One block brings the crossing one task nearer. */
  lemma FillStep(ws: seq<Window>, i: nat, j: nat, company: bool)
    requires i < j < |ws| && FirstFit(ws) < j && CanCross(ws, i, j)
    ensures var r := Shrunk(FillTask(ws, i, j, FirstFit(ws), company), ws);
      && Fewest(r, i, j) == Fewest(ws, i, j) - 1
      && CanCross(r, i, j) && r[j] == ws[j]
  {
    var n := FirstFit(ws);
    var t := FillTask(ws, i, j, n, company);
    CarveFits(t, ws[n]);
    var w := Window(Carve(t, ws[n]).end, ws[n].end);
    BlocksBeforeUpdate(ws, i, j, n, w, j);
    FillTakesOne(ws, i, j, n, company);
  }

  lemma FillTakesOne(ws: seq<Window>, i: nat, j: nat, n: nat, company: bool)
    requires i < j < |ws| && n < j && Usable(ws[n]) && CanCross(ws, i, j)
    ensures var t := FillTask(ws, i, j, n, company);
      var r := ws[n := Window(Carve(t, ws[n]).end, ws[n].end)];
      BlocksIn(r, i, j, n) == BlocksIn(ws, i, j, n) - 1 && CanCross(r, i, j)
  {
    var left, go := Minutes(ws[n]), MustGo(ws, i, j, n);
    var t := FillTask(ws, i, j, n, company);
    var r := ws[n := Window(Carve(t, ws[n]).end, ws[n].end)];
    CarveFits(t, ws[n]);
    var taken := FillMinutes(left, go);
    assert BlockMinutes(t, ws[n]) == taken;
    assert Minutes(r[n]) == left - taken && MustGo(r, i, j, n) == go - taken;
    assert 1 <= go <= left;
  }

  ghost predicate CoversAt(placed: seq<Placed>, k: nat, i: nat, t: int) {
    k < |placed| && placed[k].window == i && placed[k].focus.start <= t < placed[k].focus.end
  }

  lemma FillTasksFirst(ws: seq<Window>, i: nat, j: nat, rounds: nat, company: bool)
    requires rounds > 0 && FirstFit(ws) <= j < |ws|
    ensures var n := FirstFit(ws);
      var t := FillTask(ws, i, j, n, company);
      var r := Shrunk(t, ws);
      Allot(FillTasks(ws, i, j, rounds, company), ws).placed ==
        [Placed(n, Carve(t, ws[n]))]
        + if n == j then [] else Allot(FillTasks(r, i, j, rounds - 1, company), r).placed
  {
    var n := FirstFit(ws);
    var t := FillTask(ws, i, j, n, company);
    var later := if n == j then [] else FillTasks(Shrunk(t, ws), i, j, rounds - 1, company);
    assert FillTasks(ws, i, j, rounds, company) == [t] + later;
    assert ([t] + later)[1..] == later;
  }

  /** Block `b` of window `j`, and block `a` of window `i` unless that already starts later, lie over the
      start of window `j`. */
  ghost predicate BothCover(ws: seq<Window>, i: nat, j: nat, rounds: nat, company: bool, a: nat, b: nat)
    requires i < j < |ws|
  {
    var placed := Allot(FillTasks(ws, i, j, rounds, company), ws).placed;
    && CoversAt(placed, b, j, ws[j].start)
    && (ws[i].start <= ws[j].start ==> CoversAt(placed, a, i, ws[j].start))
  }

  lemma CoverLast(ws: seq<Window>, i: nat, j: nat, rounds: nat, company: bool)
    requires i < j < |ws| && FirstFit(ws) == j && CanCross(ws, i, j) && rounds > 0
    ensures BothCover(ws, i, j, rounds, company, 0, 0)
  {
    FillTasksFirst(ws, i, j, rounds, company);
    CarveFits(FillTask(ws, i, j, j, company), ws[j]);
  }

  lemma CoverMoves(p: Placed, later: seq<Placed>, k: nat, i: nat, t: int)
    requires CoversAt(later, k, i, t)
    ensures CoversAt([p] + later, k + 1, i, t)
  {}

  /** The first block covers already, or what the later ones cover is covered. */
  lemma CoverNext(p: Placed, later: seq<Placed>, i: nat, j: nat, start: int, t: int, a: nat, b: nat)
    requires CoversAt(later, b, j, t) && (p.window == i ==> p.focus.start == start)
    requires (if p.window == i then p.focus.end else start) <= t ==> CoversAt(later, a, i, t)
    ensures var now := p.window == i && t < p.focus.end;
      && CoversAt([p] + later, b + 1, j, t)
      && (start <= t ==> CoversAt([p] + later, if now then 0 else a + 1, i, t))
  {
    CoverMoves(p, later, b, j, t);
    if !(p.window == i && t < p.focus.end) && start <= t { CoverMoves(p, later, a, i, t); }
  }

  lemma CoverStep(ws: seq<Window>, i: nat, j: nat, rounds: nat, company: bool, a: nat, b: nat) returns (a': nat)
    requires i < j < |ws| && FirstFit(ws) < j && rounds > 0
    requires var r := Shrunk(FillTask(ws, i, j, FirstFit(ws), company), ws);
      BothCover(r, i, j, rounds - 1, company, a, b)
    ensures BothCover(ws, i, j, rounds, company, a', b + 1)
  {
    var n := FirstFit(ws);
    var task := FillTask(ws, i, j, n, company);
    var block, r := Carve(task, ws[n]), Shrunk(task, ws);
    var later := Allot(FillTasks(r, i, j, rounds - 1, company), r).placed;
    FillTasksFirst(ws, i, j, rounds, company);
    assert r[j] == ws[j] && r[i].start == if n == i then block.end else ws[i].start;
    CoverNext(Placed(n, block), later, i, j, ws[i].start, ws[j].start, a, b);
    a' := if n == i && ws[j].start < block.end then 0 else a + 1;
  }

  /** The filling tasks put two blocks over the start of window `j`. */
  lemma {:induction false} FillTasksCross(ws: seq<Window>, i: nat, j: nat, rounds: nat, company: bool)
    returns (a: nat, b: nat)
    requires i < j < |ws| && Usable(ws[j]) && CanCross(ws, i, j) && Fewest(ws, i, j) <= rounds
    ensures BothCover(ws, i, j, rounds, company, a, b)
    decreases rounds
  {
    var n := FirstFit(ws);
    FewestPositive(ws, i, j, j);
    if n == j {
      CoverLast(ws, i, j, rounds, company);
      a, b := 0, 0;
    } else {
      FillStep(ws, i, j, company);
      a, b := FillTasksCross(Shrunk(FillTask(ws, i, j, n, company), ws), i, j, rounds - 1, company);
      a := CoverStep(ws, i, j, rounds, company, a, b);
      b := b + 1;
    }
  }

  lemma {:induction false} FewestPositive(ws: seq<Window>, i: nat, j: nat, k: nat)
    requires i < j < |ws| && k <= j
    ensures BlocksBefore(ws, i, j, k) >= 0
  {
    if k > 0 { FewestPositive(ws, i, j, k - 1); }
  }

  // ---- Theorems about a pool

  lemma ClashIsTaken(ws: seq<Window>, i: nat, j: nat, n: nat, company: bool) returns (tasks: seq<Task>)
    requires StartsSorted(ws) && i < j < |ws| && !NoClash(ws[i], ws[j]) && Fewest(ws, i, j) <= n
    ensures |tasks| <= n && !SafeFor(ws, tasks)
    ensures forall t :: t in tasks ==> t.company == company && !t.flexible
  {
    tasks := FillTasks(ws, i, j, n, company);
    FillTasksAre(ws, i, j, n, company);
    var a, b := FillTasksCross(ws, i, j, n, company);
    var bs := Blocks(Allot(tasks, ws).placed);
    assert !BlocksApart(bs[a], bs[b]) && !BlocksApart(bs[b], bs[a]) && a != b;
  }

  ghost predicate InTurn(bs: seq<Focus>) {
    forall j, k :: 0 <= j < k < |bs| ==> bs[j].end <= bs[k].start
  }

  /** In an uncrowded pool the slots are handed out in time order and do not overlap. */
  lemma UncrowdedIsInTurn(ws: seq<Window>, n: nat, tasks: seq<Task>)
    requires StartsSorted(ws) && Uncrowded(ws, n) && |tasks| <= n
    ensures InTurn(Blocks(Allot(tasks, ws).placed)) && SafeFor(ws, tasks)
  {
    AllotMovesForward(tasks, ws);
    var placed := Allot(tasks, ws).placed;
    forall a, b | 0 <= a < b < |placed| ensures placed[a].focus.end <= placed[b].focus.start {
      AllotFits(tasks, ws, b);
      if placed[a].window == placed[b].window {
        AllotFollows(tasks, ws, a, b);
      } else if Crosses(tasks, ws, a, b) {
        CrossingTakesFewest(tasks, ws, a, b);
      }
    }
    assert forall a, b :: 0 <= a < b < |placed| ==> BlocksApart(placed[a].focus, placed[b].focus);
  }

  /** These tasks, if they are at most `n`, get slots that do not overlap. */
  ghost predicate SafeWithin(ws: seq<Window>, n: nat, tasks: seq<Task>) {
    |tasks| <= n ==> SafeFor(ws, tasks)
  }

  /** A pool of windows sorted by start gives every second away at most once, whatever at most `n` tasks
      come, exactly when every two clashing windows need more than `n` tasks to clash. */
  lemma NeverDoubleBookedIff(ws: seq<Window>, n: nat)
    requires StartsSorted(ws)
    ensures (forall tasks :: SafeWithin(ws, n, tasks)) <==> Uncrowded(ws, n)
  {
    if Uncrowded(ws, n) {
      forall tasks ensures SafeWithin(ws, n, tasks) {
        if |tasks| <= n { UncrowdedIsInTurn(ws, n, tasks); }
      }
    } else {
      var i, j :| 0 <= i < j < |ws| && !NoClash(ws[i], ws[j]) && Fewest(ws, i, j) <= n;
      var tasks := ClashIsTaken(ws, i, j, n, false);
      assert !SafeWithin(ws, n, tasks);
    }
  }

  /** Over ordered windows the slots are also handed out in time order: the more important task gets
      the earlier slot. */
  lemma AllotIsChronological(tasks: seq<Task>, ws: seq<Window>)
    requires Ordered(ws)
    ensures InTurn(Blocks(Allot(tasks, ws).placed))
  {
    AllotMovesForward(tasks, ws);
    var a := Allot(tasks, ws);
    forall j, k | 0 <= j < k < |a.placed| ensures a.placed[j].focus.end <= a.placed[k].focus.start {
      AllotFits(tasks, ws, j);
      AllotFits(tasks, ws, k);
      if a.placed[j].window == a.placed[k].window { AllotFollows(tasks, ws, j, k); }
    }
  }

  // ---------------------------------------------------------------------------------------------
  // The day's focus blocks
  // ---------------------------------------------------------------------------------------------

  datatype Lunch = Lunch(start: Option<int>, minutes: int)

  /** The lunch entry appended to the schedule, if any. */
  function LunchBlock(lunch: Lunch): seq<Block> {
    if lunch.start == None || lunch.minutes <= 0 then []
    else [Block(lunch.start.value, lunch.start.value + 60 * lunch.minutes, false)]
  }

  function AsWindows(blocks: seq<Block>): (ws: seq<Window>)
    ensures |ws| == |blocks| && forall i :: 0 <= i < |ws| ==> ws[i] == Window(blocks[i].start, blocks[i].end)
  {
    seq(|blocks|, i requires 0 <= i < |blocks| => Window(blocks[i].start, blocks[i].end))
  }

  predicate WindowStartsBefore(a: Window, b: Window) { a.start <= b.start }

  predicate FocusStartsBefore(a: Focus, b: Focus) { a.start <= b.start }

  predicate IsWork(b: Block) { b.work }

  predicate IsNotWork(b: Block) { !b.work }

  predicate IsSchedulable(t: Task) { !t.flexible }

  predicate IsCompany(t: Task) { t.company }

  predicate IsOther(t: Task) { !t.company }

  function WorkEvents(schedule: seq<Block>): (r: seq<Block>)
    ensures forall e :: e in r <==> e in schedule && e.work
  {
    Select(schedule, IsWork)
  }

  function WorkWindows(schedule: seq<Block>): seq<Window> {
    StableSort(AsWindows(WorkEvents(schedule)), WindowStartsBefore)
  }

  function FirstTasks(tasks: seq<Task>): (r: seq<Task>)
    ensures r <= tasks && |r| == Min(|tasks|, MAXIMUM_TASKS)
    ensures forall t :: t in r ==> t in tasks
  {
    if |tasks| <= MAXIMUM_TASKS then tasks else tasks[..MAXIMUM_TASKS]
  }

  function TotalMinutes(ws: seq<Window>): int {
    if ws == [] then 0 else Minutes(ws[0]) + TotalMinutes(ws[1..])
  }

  datatype DayPlan = DayPlan(blocks: seq<Focus>, available: int)

  /** The request: schedule, start of day, tasks in priority order, mode and lunch. */
  datatype Request = Request(schedule: seq<Block>, dayStart: int, tasks: seq<Task>, workMode: bool, lunch: Lunch) {
    function Schedulable(): seq<Task> { Select(tasks, IsSchedulable) }

    function CompanyTasks(): seq<Task> { FirstTasks(Select(Schedulable(), IsCompany)) }

    function OtherTasks(): seq<Task> { FirstTasks(Select(Schedulable(), IsOther)) }

    /** What the free windows must avoid. */
    function Occupied(): seq<Block> {
      (if workMode then schedule else Select(schedule, IsNotWork)) + LunchBlock(lunch)
    }

    function Free(): seq<Window> { FreeWindows(Occupied(), dayStart) }

    function Plan(): DayPlan {
      if workMode then
        DayPlan(StableSort(Blocks(Allot(CompanyTasks(), WorkWindows(schedule)).placed)
                           + Blocks(Allot(OtherTasks(), Free()).placed), FocusStartsBefore),
                TotalMinutes(WorkWindows(schedule)) + TotalMinutes(Free()))
      else
        DayPlan(Blocks(Allot(FirstTasks(Schedulable()), Free()).placed), TotalMinutes(Free()))
    }
  }

  method SumMinutes(ws: seq<Window>) returns (total: int)
    ensures total == TotalMinutes(ws)
  {
    total := 0;
    for i := 0 to |ws|
      invariant total + TotalMinutes(ws[i..]) == TotalMinutes(ws)
    {
      total := total + (ws[i].end - ws[i].start) / 60;
    }
  }

  /** Places tasks over a copy of the windows. */
  method AllotOver(tasks: seq<Task>, ws: seq<Window>) returns (blocks: seq<Focus>)
    ensures blocks == Blocks(Allot(tasks, ws).placed)
  {
    var buffer := new Window[|ws|](i requires 0 <= i < |ws| => ws[i]);
    assert buffer[..] == ws;
    blocks := AllotTasks(tasks, buffer);
  }

  method BuildFocusBlocks(r: Request) returns (blocks: seq<Focus>, available: int)
    ensures DayPlan(blocks, available) == r.Plan()
  {
    var free := AvailableWindows(r.Occupied(), r.dayStart);
    if !r.workMode {
      available := SumMinutes(free);
      if free == [] {
        AllotRefusesAll(FirstTasks(r.Schedulable()), free);
        return [], available;
      }
      blocks := AllotOver(FirstTasks(r.Schedulable()), free);
      return;
    }
    var work := WorkWindows(r.schedule);
    var workMinutes := SumMinutes(work);
    var freeMinutes := SumMinutes(free);
    available := workMinutes + freeMinutes;
    var workBlocks := AllotOver(r.CompanyTasks(), work);
    var otherBlocks := AllotOver(r.OtherTasks(), free);
    blocks := StableSort(workBlocks + otherBlocks, FocusStartsBefore);
  }

  // ---------------------------------------------------------------------------------------------
  // Theorems about the whole day
  // ---------------------------------------------------------------------------------------------

  function Span(b: Focus): Window { Window(b.start, b.end) }

  ghost predicate Timetable(blocks: seq<Focus>) {
    (forall b :: b in blocks ==> FocusSized(b)) && InTurn(blocks)
  }

  /** Work events do not overlap each other. */
  ghost predicate WorkEventsDisjoint(schedule: seq<Block>) {
    forall i, j :: 0 <= i < j < |schedule| && schedule[i].work && schedule[j].work ==>
      schedule[i].end <= schedule[j].start || schedule[j].end <= schedule[i].start
  }

  lemma FreeBlocksAvoid(tasks: seq<Task>, occupied: seq<Block>, dayStart: int, b: Focus)
    requires b in Blocks(Allot(tasks, FreeWindows(occupied, dayStart)).placed)
    ensures Clear(occupied, Span(b))
  {
    var ws := FreeWindows(occupied, dayStart);
    AllotIsSafe(tasks, ws);
    WindowsAreFree(occupied, dayStart);
    var i :| 0 <= i < |ws| && ws[i].start <= b.start && b.end <= ws[i].end;
    assert ws[i] in ws;
    forall e | e in occupied ensures Apart(e, Span(b)) {
      assert Apart(e, ws[i]);
    }
  }

  /** Free mode, for any events whatever: a block avoids lunch and every event that is not work. */
  lemma FreeBlocksKeepClear(r: Request, b: Focus)
    requires !r.workMode && b in r.Plan().blocks
    ensures FocusSized(b) && forall e :: e in r.schedule + LunchBlock(r.lunch) && !e.work ==> Apart(e, Span(b))
  {
    var tasks := FirstTasks(r.Schedulable());
    assert r.Plan().blocks == Blocks(Allot(tasks, r.Free()).placed);
    AllotIsSafe(tasks, r.Free());
    FreeBlocksAvoid(tasks, r.Occupied(), r.dayStart, b);
    assert forall e :: e in r.schedule + LunchBlock(r.lunch) && !e.work ==> e in r.Occupied();
  }

  /** Free mode: the blocks last 30 to 120 minutes and avoid lunch and every event that is not work; when
      none of these ends before it starts, they are also in time order and do not overlap. */
  lemma FreeModeTimetable(r: Request)
    requires !r.workMode
    ensures forall b :: b in r.Plan().blocks ==> FocusSized(b)
    ensures forall b, e :: b in r.Plan().blocks && e in r.schedule + LunchBlock(r.lunch) && !e.work ==>
      Apart(e, Span(b))
    ensures Forward(r.Occupied()) ==> Timetable(r.Plan().blocks)
  {
    forall b | b in r.Plan().blocks ensures FocusSized(b) { FreeBlocksKeepClear(r, b); }
    forall b, e | b in r.Plan().blocks && e in r.schedule + LunchBlock(r.lunch) && !e.work ensures Apart(e, Span(b)) {
      FreeBlocksKeepClear(r, b);
    }
    if Forward(r.Occupied()) { FreeBlocksInTurn(r); }
  }

  lemma FreeBlocksInTurn(r: Request)
    requires !r.workMode && Forward(r.Occupied())
    ensures InTurn(r.Plan().blocks)
  {
    WindowsAreOrdered(r.Occupied(), r.dayStart);
    AllotIsChronological(FirstTasks(r.Schedulable()), r.Free());
    var bs := r.Plan().blocks;
    assert bs == Blocks(Allot(FirstTasks(r.Schedulable()), r.Free()).placed);
  }

  lemma WorkWindowIsWorkEvent(schedule: seq<Block>, w: Window)
    requires w in WorkWindows(schedule)
    ensures exists e :: e in schedule && e.work && w == Window(e.start, e.end)
  {
    var events := WorkEvents(schedule);
    SameElements(AsWindows(events), WindowStartsBefore);
    var k :| 0 <= k < |events| && AsWindows(events)[k] == w;
    assert events[k] in events;
  }

  lemma CompanyBlocksInWork(r: Request, b: Focus)
    requires b in Blocks(Allot(r.CompanyTasks(), WorkWindows(r.schedule)).placed)
    ensures FocusSized(b) && b.task.company
    ensures exists e :: e in r.schedule && e.work && Within(Span(b), Window(e.start, e.end))
  {
    var ws := WorkWindows(r.schedule);
    AllotIsSafe(r.CompanyTasks(), ws);
    var i :| 0 <= i < |ws| && ws[i].start <= b.start && b.end <= ws[i].end;
    WorkWindowIsWorkEvent(r.schedule, ws[i]);
  }

  lemma OtherBlocksAvoidAll(r: Request, b: Focus)
    requires r.workMode && b in Blocks(Allot(r.OtherTasks(), r.Free()).placed)
    ensures FocusSized(b) && !b.task.company && Clear(r.schedule + LunchBlock(r.lunch), Span(b))
  {
    AllotIsSafe(r.OtherTasks(), r.Free());
    FreeBlocksAvoid(r.OtherTasks(), r.Occupied(), r.dayStart, b);
  }

  predicate EventsApart(a: Block, b: Block) { a.end <= b.start || b.end <= a.start }

  lemma {:induction false} WorkEventsApart(schedule: seq<Block>)
    requires WorkEventsDisjoint(schedule)
    ensures Pairwise(WorkEvents(schedule), EventsApart)
  {
    if schedule != [] {
      var tail := schedule[1..];
      assert forall i :: 0 <= i < |tail| ==> tail[i] == schedule[i + 1];
      WorkEventsApart(tail);
      if schedule[0].work {
        forall e | e in WorkEvents(tail) ensures EventsApart(schedule[0], e) {
          var j :| 0 <= j < |tail| && tail[j] == e;
          assert schedule[j + 1] == e;
        }
        PairwiseCons(schedule[0], WorkEvents(tail), EventsApart);
      }
    }
  }

  lemma WorkWindowsDisjoint(schedule: seq<Block>)
    requires WorkEventsDisjoint(schedule)
    ensures UsableDisjoint(WorkWindows(schedule))
  {
    WorkEventsApart(schedule);
    var events := WorkEvents(schedule);
    var all := AsWindows(events);
    var rel := (a: Window, b: Window) =>
      Usable(a) && Usable(b) ==> WholeEnd(a) <= b.start || WholeEnd(b) <= a.start;
    forall i, j | 0 <= i < j < |all| ensures rel(all[i], all[j]) { assert EventsApart(events[i], events[j]); }
    StableSortKeepsPairwise(all, WindowStartsBefore, rel);
    var ws := WorkWindows(schedule);
    forall i, j | 0 <= i < j < |ws| ensures NoClash(ws[i], ws[j]) { assert rel(ws[i], ws[j]); }
  }

  /** A block inside a work event keeps clear of a block that avoids every event. */
  lemma CompanyAndOtherApart(r: Request, x: Focus, y: Focus)
    requires r.workMode
    requires x in Blocks(Allot(r.CompanyTasks(), WorkWindows(r.schedule)).placed)
    requires y in Blocks(Allot(r.OtherTasks(), r.Free()).placed)
    ensures BlocksApart(x, y)
  {
    CompanyBlocksInWork(r, x);
    OtherBlocksAvoidAll(r, y);
    var e :| e in r.schedule && e.work && Within(Span(x), Window(e.start, e.end));
    assert Apart(e, Span(y));
  }

  lemma PoolsStartSorted(r: Request)
    ensures StartsSorted(WorkWindows(r.schedule)) && StartsSorted(r.Free())
  {
    assert Preorder(WindowStartsBefore);
    StableSortSorts(AsWindows(WorkEvents(r.schedule)), WindowStartsBefore);
    WindowsStartInOrder(r.Occupied(), r.dayStart);
  }

  /** Work mode: the plan is a timetable exactly when neither pool is double-booked. */
  lemma WorkPlanByPools(r: Request)
    requires r.workMode
    ensures Timetable(r.Plan().blocks) <==>
      SafeFor(WorkWindows(r.schedule), r.CompanyTasks()) && SafeFor(r.Free(), r.OtherTasks())
  {
    var company := Blocks(Allot(r.CompanyTasks(), WorkWindows(r.schedule)).placed);
    var others := Blocks(Allot(r.OtherTasks(), r.Free()).placed);
    var all := r.Plan().blocks;
    forall x, y | x in company && y in others ensures BlocksApart(x, y) { CompanyAndOtherApart(r, x, y); }
    PairwiseSplit(company, others, BlocksApart);
    StableSortKeepsPairwise(company + others, FocusStartsBefore, BlocksApart);
    SameElements(company + others, FocusStartsBefore);
    forall b | b in all ensures FocusSized(b) {
      if b in company { CompanyBlocksInWork(r, b); } else { OtherBlocksAvoidAll(r, b); }
    }
    assert Preorder(FocusStartsBefore);
    StableSortSorts(company + others, FocusStartsBefore);
    SortedTimetable(all);
  }

  lemma SortedTimetable(all: seq<Focus>)
    requires (forall b :: b in all ==> FocusSized(b)) && SortedBy(all, FocusStartsBefore)
    ensures Timetable(all) <==> PairwiseApart(all)
  {
    if PairwiseApart(all) {
      forall i, j | 0 <= i < j < |all| ensures all[i].end <= all[j].start {
        assert BlocksApart(all[i], all[j]) && FocusStartsBefore(all[i], all[j]);
        assert all[i] in all && all[j] in all;
      }
    }
  }

  /** The plan of a day for some tasks is a timetable. */
  ghost predicate TimetableFor(r: Request, tasks: seq<Task>) {
    Timetable(r.(tasks := tasks).Plan().blocks)
  }

  lemma PoolOfTasks(r: Request, tasks: seq<Task>, company: bool)
    requires |tasks| <= MAXIMUM_TASKS && forall t :: t in tasks ==> t.company == company && !t.flexible
    ensures var day := r.(tasks := tasks);
      && FirstTasks(day.Schedulable()) == tasks
      && (company ==> day.CompanyTasks() == tasks) && (!company ==> day.OtherTasks() == tasks)
  {
    SelectAll(tasks, IsSchedulable);
    SelectAll(tasks, if company then IsCompany else IsOther);
  }

  /** Work mode, for any events whatever: the blocks of a day are in time order and do not overlap, for
      every task list, exactly when neither the work events nor the free windows can clash within the six
      tasks each is offered. */
  lemma WorkModeTimetableIff(r: Request)
    requires r.workMode
    ensures (forall tasks :: TimetableFor(r, tasks)) <==>
      Uncrowded(WorkWindows(r.schedule), MAXIMUM_TASKS) && Uncrowded(r.Free(), MAXIMUM_TASKS)
  {
    var work, free := WorkWindows(r.schedule), r.Free();
    PoolsStartSorted(r);
    if Uncrowded(work, MAXIMUM_TASKS) && Uncrowded(free, MAXIMUM_TASKS) {
      forall tasks ensures TimetableFor(r, tasks) { UncrowdedTimetable(r.(tasks := tasks)); }
    }
    if !Uncrowded(work, MAXIMUM_TASKS) {
      var tasks := CrowdedTasks(work, true);
      PoolOfTasks(r, tasks, true);
      WorkPlanByPools(r.(tasks := tasks));
      assert !TimetableFor(r, tasks);
    }
    if !Uncrowded(free, MAXIMUM_TASKS) {
      var tasks := CrowdedTasks(free, false);
      PoolOfTasks(r, tasks, false);
      WorkPlanByPools(r.(tasks := tasks));
      assert !TimetableFor(r, tasks);
    }
  }

  lemma CrowdedTasks(ws: seq<Window>, company: bool) returns (tasks: seq<Task>)
    requires StartsSorted(ws) && !Uncrowded(ws, MAXIMUM_TASKS)
    ensures |tasks| <= MAXIMUM_TASKS && !SafeFor(ws, tasks)
    ensures forall t :: t in tasks ==> t.company == company && !t.flexible
  {
    var i, j :| 0 <= i < j < |ws| && !NoClash(ws[i], ws[j]) && Fewest(ws, i, j) <= MAXIMUM_TASKS;
    tasks := ClashIsTaken(ws, i, j, MAXIMUM_TASKS, company);
  }

  lemma UncrowdedTimetable(r: Request)
    requires r.workMode && Uncrowded(WorkWindows(r.schedule), MAXIMUM_TASKS) && Uncrowded(r.Free(), MAXIMUM_TASKS)
    ensures Timetable(r.Plan().blocks)
  {
    PoolsStartSorted(r);
    UncrowdedIsInTurn(WorkWindows(r.schedule), MAXIMUM_TASKS, r.CompanyTasks());
    UncrowdedIsInTurn(r.Free(), MAXIMUM_TASKS, r.OtherTasks());
    WorkPlanByPools(r);
  }

  lemma TimetableIsApart(bs: seq<Focus>)
    ensures Timetable(bs) ==> PairwiseApart(bs)
  {
    if Timetable(bs) {
      forall a, b | 0 <= a < b < |bs| ensures BlocksApart(bs[a], bs[b]) {}
    }
  }

  /** Free mode, for any events whatever: the blocks of a day are in time order and do not overlap, for
      every task list, exactly when the free windows cannot clash within six tasks. */
  lemma FreeModeTimetableIff(r: Request)
    requires !r.workMode
    ensures (forall tasks :: TimetableFor(r, tasks)) <==> Uncrowded(r.Free(), MAXIMUM_TASKS)
  {
    var free := r.Free();
    PoolsStartSorted(r);
    if Uncrowded(free, MAXIMUM_TASKS) {
      forall tasks ensures TimetableFor(r, tasks) {
        var day := r.(tasks := tasks);
        UncrowdedIsInTurn(free, MAXIMUM_TASKS, FirstTasks(day.Schedulable()));
        AllotIsSafe(FirstTasks(day.Schedulable()), free);
      }
    } else {
      var tasks := CrowdedTasks(free, false);
      PoolOfTasks(r, tasks, false);
      var bs := r.(tasks := tasks).Plan().blocks;
      assert bs == Blocks(Allot(tasks, free).placed);
      TimetableIsApart(bs);
      assert !TimetableFor(r, tasks);
    }
  }

  lemma DisjointIsUncrowded(ws: seq<Window>, n: nat)
    ensures UsableDisjoint(ws) ==> Uncrowded(ws, n)
    ensures Ordered(ws) ==> Uncrowded(ws, n)
  {}

  /** Work mode, with work events that do not overlap each other: the blocks are in time order, do
      not overlap and last 30 to 120 minutes; a company block lies inside one work event; any other
      block avoids lunch and every fixed event. */
  lemma WorkModeTimetable(r: Request)
    requires r.workMode && Forward(r.schedule) && WorkEventsDisjoint(r.schedule)
    ensures Timetable(r.Plan().blocks)
    ensures forall b :: b in r.Plan().blocks && b.task.company ==>
      exists e :: e in r.schedule && e.work && Within(Span(b), Window(e.start, e.end))
    ensures forall b :: b in r.Plan().blocks && !b.task.company ==> Clear(r.schedule + LunchBlock(r.lunch), Span(b))
  {
    WorkWindowsDisjoint(r.schedule);
    DisjointIsUncrowded(WorkWindows(r.schedule), MAXIMUM_TASKS);
    WindowsAreOrdered(r.Occupied(), r.dayStart);
    DisjointIsUncrowded(r.Free(), MAXIMUM_TASKS);
    UncrowdedTimetable(r);
    forall b | b in r.Plan().blocks
      ensures b.task.company ==> exists e :: e in r.schedule && e.work && Within(Span(b), Window(e.start, e.end))
      ensures !b.task.company ==> Clear(r.schedule + LunchBlock(r.lunch), Span(b))
    {
      WorkBlocksKeepClear(r, b);
    }
  }

  /** Work mode, for any events whatever: a company block lies inside one work event, and any other block
      avoids lunch and every fixed event. */
  lemma WorkBlocksKeepClear(r: Request, b: Focus)
    requires r.workMode && b in r.Plan().blocks
    ensures FocusSized(b)
    ensures b.task.company ==> exists e :: e in r.schedule && e.work && Within(Span(b), Window(e.start, e.end))
    ensures !b.task.company ==> Clear(r.schedule + LunchBlock(r.lunch), Span(b))
  {
    var company := Blocks(Allot(r.CompanyTasks(), WorkWindows(r.schedule)).placed);
    var others := Blocks(Allot(r.OtherTasks(), r.Free()).placed);
    SameElements(company + others, FocusStartsBefore);
    if b in company { CompanyBlocksInWork(r, b); } else { OtherBlocksAvoidAll(r, b); }
  }

  function TasksOf(bs: seq<Focus>): (r: seq<Task>)
    ensures |r| == |bs| && forall i :: 0 <= i < |r| ==> r[i] == bs[i].task
  {
    seq(|bs|, i requires 0 <= i < |bs| => bs[i].task)
  }

  ghost predicate Exhausted(ws: seq<Window>) {
    forall i :: 0 <= i < |ws| ==> Minutes(ws[i]) < MINIMUM_FOCUS_BLOCK_MINUTES
  }

  lemma PoolServesPrefix(tasks: seq<Task>, ws: seq<Window>)
    ensures var a := Allot(tasks, ws);
      && TasksOf(Blocks(a.placed)) <= tasks
      && (TasksOf(Blocks(a.placed)) != tasks ==> Exhausted(a.rest))
  {
    AllotServesPrefix(tasks, ws);
  }

  /** Free mode serves by priority: the blocks are one each for the first of at most six tasks, and a
      task is left out only when no window of 30 minutes is left. */
  lemma FreeModeServesPrefix(r: Request)
    requires !r.workMode
    ensures |FirstTasks(r.Schedulable())| <= MAXIMUM_TASKS
    ensures TasksOf(r.Plan().blocks) <= FirstTasks(r.Schedulable())
    ensures TasksOf(r.Plan().blocks) != FirstTasks(r.Schedulable()) ==>
      Exhausted(Allot(FirstTasks(r.Schedulable()), r.Free()).rest)
  {
    PoolServesPrefix(FirstTasks(r.Schedulable()), r.Free());
  }

  /** Work mode serves each pool by priority: the blocks are one each for the first company tasks and
      for the first other tasks, of at most six offered each, and a pool leaves a task out only when no
      window of 30 minutes is left in it. */
  lemma WorkModeServesPrefixes(r: Request) returns (company: seq<Focus>, others: seq<Focus>)
    requires r.workMode
    ensures multiset(r.Plan().blocks) == multiset(company) + multiset(others)
    ensures |r.CompanyTasks()| <= MAXIMUM_TASKS && |r.OtherTasks()| <= MAXIMUM_TASKS
    ensures TasksOf(company) <= r.CompanyTasks() && TasksOf(others) <= r.OtherTasks()
    ensures TasksOf(company) != r.CompanyTasks() ==> Exhausted(Allot(r.CompanyTasks(), WorkWindows(r.schedule)).rest)
    ensures TasksOf(others) != r.OtherTasks() ==> Exhausted(Allot(r.OtherTasks(), r.Free()).rest)
  {
    company := Blocks(Allot(r.CompanyTasks(), WorkWindows(r.schedule)).placed);
    others := Blocks(Allot(r.OtherTasks(), r.Free()).placed);
    PoolServesPrefix(r.CompanyTasks(), WorkWindows(r.schedule));
    PoolServesPrefix(r.OtherTasks(), r.Free());
    StableSortPermutes(company + others, FocusStartsBefore);
    assert r.Plan().blocks == StableSort(company + others, FocusStartsBefore);
  }

  // ---------------------------------------------------------------------------------------------
  // The reported minutes
  // ---------------------------------------------------------------------------------------------

  function FocusMinutes(bs: seq<Focus>): int {
    if bs == [] then 0 else (bs[0].end - bs[0].start) / 60 + FocusMinutes(bs[1..])
  }

  lemma {:induction false} AllotMinutes(tasks: seq<Task>, ws: seq<Window>)
    ensures var a := Allot(tasks, ws); TotalMinutes(a.rest) + FocusMinutes(Blocks(a.placed)) == TotalMinutes(ws)
  {
    if tasks != [] {
      var i := FirstFit(ws);
      if i == |ws| {
        AllotMinutes(tasks[1..], ws);
      } else {
        CarveFits(tasks[0], ws[i]);
        var b := Carve(tasks[0], ws[i]);
        var shrunk := ws[i := Window(b.end, ws[i].end)];
        AllotMinutes(tasks[1..], shrunk);
        TotalMinutesUpdate(ws, i, Window(b.end, ws[i].end));
        var a, later := Allot(tasks, ws), Allot(tasks[1..], shrunk);
        assert Blocks(a.placed) == [b] + Blocks(later.placed);
      }
    }
  }

  lemma {:induction false} TotalMinutesUpdate(ws: seq<Window>, i: nat, w: Window)
    requires i < |ws|
    ensures TotalMinutes(ws[i := w]) == TotalMinutes(ws) - Minutes(ws[i]) + Minutes(w)
  {
    if i > 0 {
      TotalMinutesUpdate(ws[1..], i - 1, w);
      assert ws[i := w][1..] == ws[1..][i - 1 := w];
    } else {
      assert ws[0 := w][1..] == ws[1..];
    }
  }

  lemma {:induction false} TotalMinutesNonNegative(ws: seq<Window>)
    requires forall w :: w in ws ==> w.start <= w.end
    ensures TotalMinutes(ws) >= 0
  {
    if ws != [] {
      assert ws[0] in ws;
      TotalMinutesNonNegative(ws[1..]);
    }
  }

  lemma RestNonNegative(tasks: seq<Task>, ws: seq<Window>)
    requires forall w :: w in ws ==> w.start <= w.end
    ensures TotalMinutes(Allot(tasks, ws).rest) >= 0
  {
    var a := Allot(tasks, ws);
    forall w | w in a.rest ensures w.start <= w.end {
      var i :| 0 <= i < |a.rest| && a.rest[i] == w;
      AllotKeepsWindow(tasks, ws, i);
      assert ws[i] in ws;
    }
    TotalMinutesNonNegative(a.rest);
  }

  lemma {:induction false} FocusMinutesPermuted(a: seq<Focus>, b: seq<Focus>)
    requires multiset(a) == multiset(b)
    ensures FocusMinutes(a) == FocusMinutes(b)
  {
    if a == [] {
      assert |multiset(b)| == 0;
    } else {
      assert a[0] in multiset(b);
      var k :| 0 <= k < |b| && b[k] == a[0];
      TailMultiset(a);
      RemoveMultiset(b, k);
      FocusMinutesPermuted(a[1..], b[..k] + b[k + 1..]);
      FocusMinutesRemove(b, k);
    }
  }

  lemma RemoveMultiset(b: seq<Focus>, k: nat)
    requires k < |b|
    ensures multiset(b[..k] + b[k + 1..]) == multiset(b) - multiset{b[k]}
  {
    assert b == b[..k] + [b[k]] + b[k + 1..];
  }

  lemma {:induction false} FocusMinutesRemove(b: seq<Focus>, k: nat)
    requires k < |b|
    ensures FocusMinutes(b) == (b[k].end - b[k].start) / 60 + FocusMinutes(b[..k] + b[k + 1..])
  {
    if k == 0 {
      assert b[..0] + b[1..] == b[1..];
    } else {
      FocusMinutesRemove(b[1..], k - 1);
      var r := b[..k] + b[k + 1..];
      assert r[1..] == b[1..][..k - 1] + b[1..][k..];
    }
  }

  lemma {:induction false} FocusMinutesAppend(a: seq<Focus>, b: seq<Focus>)
    ensures FocusMinutes(a + b) == FocusMinutes(a) + FocusMinutes(b)
  {
    if a == [] {
      assert a + b == b;
    } else {
      FocusMinutesAppend(a[1..], b);
      assert (a + b)[1..] == a[1..] + b;
    }
  }

  /** The minutes left in the windows when all tasks were offered. */
  function UnusedMinutes(r: Request): int {
    if r.workMode then
      TotalMinutes(Allot(r.CompanyTasks(), WorkWindows(r.schedule)).rest)
      + TotalMinutes(Allot(r.OtherTasks(), r.Free()).rest)
    else
      TotalMinutes(Allot(FirstTasks(r.Schedulable()), r.Free()).rest)
  }

  /** The minutes reported as available are exactly the minutes handed out and the minutes left. */
  lemma MinutesAreConserved(r: Request)
    ensures r.Plan().available == FocusMinutes(r.Plan().blocks) + UnusedMinutes(r)
  {
    if r.workMode {
      var company := Blocks(Allot(r.CompanyTasks(), WorkWindows(r.schedule)).placed);
      var others := Blocks(Allot(r.OtherTasks(), r.Free()).placed);
      AllotMinutes(r.CompanyTasks(), WorkWindows(r.schedule));
      AllotMinutes(r.OtherTasks(), r.Free());
      StableSortPermutes(company + others, FocusStartsBefore);
      FocusMinutesPermuted(r.Plan().blocks, company + others);
      FocusMinutesAppend(company, others);
    } else {
      AllotMinutes(FirstTasks(r.Schedulable()), r.Free());
    }
  }

  /** No work event ends before it starts. */
  ghost predicate WorkForward(schedule: seq<Block>) {
    forall e :: e in schedule && e.work ==> e.start <= e.end
  }

  /** The minutes handed out never exceed the minutes reported as available. */
  lemma NeverOverbooked(r: Request)
    requires r.workMode ==> WorkForward(r.schedule)
    ensures FocusMinutes(r.Plan().blocks) <= r.Plan().available
  {
    MinutesAreConserved(r);
    WindowsAreFree(r.Occupied(), r.dayStart);
    if r.workMode {
      forall w | w in WorkWindows(r.schedule) ensures w.start <= w.end { WorkWindowIsWorkEvent(r.schedule, w); }
      RestNonNegative(r.CompanyTasks(), WorkWindows(r.schedule));
      RestNonNegative(r.OtherTasks(), r.Free());
    } else {
      RestNonNegative(FirstTasks(r.Schedulable()), r.Free());
    }
  }

  /** Two work events at the same time: the plan gives two long company tasks the same slot. */
  lemma OverlappingWorkEventsDoubleBook(t1: Task, t2: Task, dayStart: int, lunch: Lunch)
    requires t1.estimatedMinutes >= 120 && t1.company && !t1.flexible
    requires t2.estimatedMinutes >= 120 && t2.company && !t2.flexible
    ensures var w := Block(36000, 43200, true);
      var bs := [Focus(36000, 43200, t1), Focus(36000, 43200, t2)];
      Request([w, w], dayStart, [t1, t2], true, lunch).Plan().blocks == bs
  {
    var w := Block(36000, 43200, true);
    var v := Window(36000, 43200);
    var r := Request([w, w], dayStart, [t1, t2], true, lunch);
    TwoEqualWorkEvents(w);
    SecondWindowUsed(t1, t2, v, Window(43200, 43200));
    SelectAll(r.tasks, IsSchedulable);
    SelectAll(r.tasks, IsCompany);
    assert Select([t2], IsOther) == Select([], IsOther) && [t1, t2][1..] == [t2];
    assert Select(r.tasks, IsOther) == [];
    assert r.CompanyTasks() == [t1, t2] && r.OtherTasks() == [];
    assert Allot([], r.Free()).placed == [];
    var bs := [Focus(36000, 43200, t1), Focus(36000, 43200, t2)];
    assert bs + Blocks([]) == bs;
    assert bs[1..] == [bs[1]] && bs[1..][1..] == [];
    assert StableSort(bs[1..], FocusStartsBefore) == bs[1..];
    assert StableSort(bs, FocusStartsBefore) == bs;
  }

  /** A company block keeps to its work event only: it may lie over lunch. */
  lemma CompanyBlockOverLunch(t: Task, dayStart: int)
    requires t.estimatedMinutes >= 120 && t.company && !t.flexible
    ensures var lunch := Lunch(Some(39600), 30);
      var b := Focus(36000, 43200, t);
      && Request([Block(36000, 43200, true)], dayStart, [t], true, lunch).Plan().blocks == [b]
      && !Apart(LunchBlock(lunch)[0], Span(b))
  {
    var w, v := Block(36000, 43200, true), Window(36000, 43200);
    var r := Request([w], dayStart, [t], true, Lunch(Some(39600), 30));
    assert Select([w][1..], IsWork) == [] && WorkEvents([w]) == [w] && AsWindows([w]) == [v];
    assert StableSort([v][1..], WindowStartsBefore) == [] && WorkWindows([w]) == [v];
    SelectAll([t], IsSchedulable);
    SelectAll([t], IsCompany);
    assert Select([t][1..], IsOther) == [] && Select([t], IsOther) == [];
    assert r.CompanyTasks() == [t] && r.OtherTasks() == [];
    assert Allot([], r.Free()).placed == [];
    assert Allot([t][1..], [Window(43200, 43200)]).placed == [];
    var b := Focus(36000, 43200, t);
    assert [v][0 := Window(43200, 43200)] == [Window(43200, 43200)];
    assert Allot([t], [v]).placed == [Placed(0, b)];
    assert Blocks([Placed(0, b)]) + Blocks([]) == [b];
    assert StableSort([b][1..], FocusStartsBefore) == [];
  }

  lemma TwoEqualWorkEvents(w: Block)
    requires w.work
    ensures var v := Window(w.start, w.end); WorkWindows([w, w]) == [v, v]
  {
    var v := Window(w.start, w.end);
    assert [w, w][1..] == [w] && [w][1..] == [];
    assert Select([], IsWork) == [] && Select([w], IsWork) == [w];
    assert WorkEvents([w]) == [w] && WorkEvents([w, w]) == [w, w];
    assert AsWindows([w, w]) == [v, v];
    assert [v, v][1..] == [v] && [v][1..] == [];
    assert StableSort([v], WindowStartsBefore) == [v];
  }

  lemma SecondWindowUsed(t1: Task, t2: Task, v: Window, done: Window)
    requires BlockMinutes(t1, v) == BlockMinutes(t2, v) == 120 && Minutes(v) == 120
    requires done == Window(v.start + 7200, v.end) && Minutes(done) == 0
    ensures var end := v.start + 7200;
      Blocks(Allot([t1, t2], [v, v]).placed) == [Focus(v.start, end, t1), Focus(v.start, end, t2)]
  {
    assert FirstFit([v, v]) == 0;
    assert [v, v][0 := done] == [done, v];
    assert [done, v][1..] == [v];
    assert FirstFit([v]) == 0 && FirstFit([done, v]) == 1;
    var last := [done, v][1 := done];
    assert [t2][1..] == [] && [t1, t2][1..] == [t2];
    assert Allot([], last).placed == [];
    assert Allot([t2], [done, v]).placed == [Placed(1, Carve(t2, v))];
    assert Allot([t1, t2], [v, v]).placed == [Placed(0, Carve(t1, v)), Placed(1, Carve(t2, v))];
  }
}
