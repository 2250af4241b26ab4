/** When a company block can lie over an event, such as lunch or a meeting nested in a work event
    (apps/planning-agent/src/yule_planning/schedule.py, lines 74-113). */
module FocusReach {
  import opened FocusBlocks
  import opened Sequences
  import opened Sorting
  import opened Windows

  // ---------------------------------------------------------------------------------------------
  // One pool
  // ---------------------------------------------------------------------------------------------

  /** The whole minutes of the window and the event share time. */
  predicate Meets(w: Window, e: Block) { w.start < e.end && e.start < WholeEnd(w) }

  /** The minutes that must be gone from the window so that a block lies over the event. */
  function UpTo(w: Window, e: Block): int { Max(1, (e.start - w.start) / 60 + 1) }

  /** The fewest tasks that use up the windows before `i` and fill `i` up to the event. */
  function TasksTo(ws: seq<Window>, i: nat, e: Block): int
    requires i < |ws|
  {
    BlocksBefore(ws, |ws|, i, i) + BlocksFor(UpTo(ws[i], e))
  }

  ghost predicate OutOfReach(ws: seq<Window>, n: nat, e: Block) {
    forall i :: 0 <= i < |ws| && Usable(ws[i]) && Meets(ws[i], e) ==> TasksTo(ws, i, e) > n
  }

  ghost predicate Over(placed: seq<Placed>, a: nat, e: Block) {
    a < |placed| && !Apart(e, Span(placed[a].focus))
  }

  // ---- A block over the event takes the fewest tasks, or more

  lemma PassedTakes(tasks: seq<Task>, ws: seq<Window>, b: nat, k: nat)
    requires b < |Allot(tasks, ws).placed| && k < Allot(tasks, ws).placed[b].window < |ws|
    ensures var placed := Allot(tasks, ws).placed; BlocksIn(ws, |ws|, placed[b].window, k) <= CountFrom(placed, k)
  {
    AllotConserves(tasks, ws, k);
    AllotKeepsWindow(tasks, ws, k);
    PassedIsUsedUp(tasks, ws, b, k);
    MinutesTake(tasks, ws, k, MustGo(ws, |ws|, Allot(tasks, ws).placed[b].window, k));
  }

  lemma {:induction false} PassedTakesBefore(tasks: seq<Task>, ws: seq<Window>, b: nat, k: nat)
    requires b < |Allot(tasks, ws).placed| && k <= Allot(tasks, ws).placed[b].window < |ws|
    ensures var placed := Allot(tasks, ws).placed;
      BlocksBefore(ws, |ws|, placed[b].window, k) <= CountBelow(placed, k)
  {
    if k > 0 {
      PassedTakesBefore(tasks, ws, b, k - 1);
      PassedTakes(tasks, ws, b, k - 1);
      CountBelowNext(Allot(tasks, ws).placed, k - 1);
    }
  }

  lemma {:induction false} OverTakesFewest(tasks: seq<Task>, ws: seq<Window>, a: nat, e: Block)
    requires TakesTime(e) && Over(Allot(tasks, ws).placed, a, e)
    ensures var i := Allot(tasks, ws).placed[a].window;
      i < |ws| && Usable(ws[i]) && Meets(ws[i], e) && TasksTo(ws, i, e) <= |tasks|
  {
    var placed := Allot(tasks, ws).placed;
    var i := placed[a].window;
    AllotFits(tasks, ws, a);
    AllotCuts(tasks, ws, a);
    AllotConserves(tasks, ws, i);
    AllotServesPrefix(tasks, ws);
    MinutesTake(tasks, ws, i, UpTo(ws[i], e));
    PassedTakesBefore(tasks, ws, a, i);
    CountBelowNext(placed, i);
    CountBelowBound(placed, i + 1);
  }

  // ---- The fewest tasks reach it

  function ReachTask(ws: seq<Window>, i: nat, e: Block, k: nat, company: bool): Task
    requires i < |ws| && k < |ws|
  {
    if k == i then Task("", FillMinutes(Minutes(ws[i]), UpTo(ws[i], e)), company, false)
    else FillTask(ws, |ws|, i, k, company)
  }

  /** Tasks that fill the windows up to the event in window `i`, within `rounds` blocks. */
  function ReachTasks(ws: seq<Window>, i: nat, e: Block, rounds: nat, company: bool): seq<Task>
    requires i < |ws|
    decreases rounds
  {
    var n := FirstFit(ws);
    if rounds == 0 || n == |ws| then []
    else
      var t := ReachTask(ws, i, e, n, company);
      [t] + ReachTasks(Shrunk(t, ws), i, e, rounds - 1, company)
  }

  lemma {:induction false} ReachTasksAre(ws: seq<Window>, i: nat, e: Block, rounds: nat, company: bool)
    requires i < |ws|
    ensures var ts := ReachTasks(ws, i, e, rounds, company);
      |ts| <= rounds && forall t :: t in ts ==> t.company == company && !t.flexible
    decreases rounds
  {
    var n := FirstFit(ws);
    if rounds > 0 && n < |ws| {
      var t := ReachTask(ws, i, e, n, company);
      var later := ReachTasks(Shrunk(t, ws), i, e, rounds - 1, company);
      ReachTasksAre(Shrunk(t, ws), i, e, rounds - 1, company);
      assert ReachTasks(ws, i, e, rounds, company) == [t] + later;
    }
  }

  lemma ReachTasksFirst(ws: seq<Window>, i: nat, e: Block, rounds: nat, company: bool)
    requires i < |ws| && rounds > 0 && FirstFit(ws) < |ws|
    ensures var n := FirstFit(ws);
      var t := ReachTask(ws, i, e, n, company);
      var r := Shrunk(t, ws);
      Allot(ReachTasks(ws, i, e, rounds, company), ws).placed ==
        [Placed(n, Carve(t, ws[n]))] + Allot(ReachTasks(r, i, e, rounds - 1, company), r).placed
  {
    var n := FirstFit(ws);
    var t := ReachTask(ws, i, e, n, company);
    var later := ReachTasks(Shrunk(t, ws), i, e, rounds - 1, company);
    assert ReachTasks(ws, i, e, rounds, company) == [t] + later;
    assert ([t] + later)[1..] == later;
  }

  /** Using up an earlier window brings the event one task nearer. */
  lemma PassingStep(ws: seq<Window>, i: nat, e: Block, company: bool)
    requires FirstFit(ws) < i < |ws|
    ensures var r := Shrunk(ReachTask(ws, i, e, FirstFit(ws), company), ws);
      r[i] == ws[i] && TasksTo(r, i, e) == TasksTo(ws, i, e) - 1
  {
    var n := FirstFit(ws);
    var t := ReachTask(ws, i, e, n, company);
    var left, go := Minutes(ws[n]), MustGo(ws, |ws|, i, n);
    CarveFits(t, ws[n]);
    FillCounts(left, go);
    var w := Window(Carve(t, ws[n]).end, ws[n].end);
    assert MustGo(ws[n := w], |ws|, i, n) == go - FillMinutes(left, go);
    BlocksBeforeUpdate(ws, |ws|, i, n, w, i);
  }

  lemma {:induction false} SameBefore(ws: seq<Window>, r: seq<Window>, i: nat, k: nat)
    requires |r| == |ws| && k <= i < |ws| && forall x :: 0 <= x < i ==> r[x] == ws[x]
    ensures BlocksBefore(r, |ws|, i, k) == BlocksBefore(ws, |ws|, i, k)
  {
    if k > 0 { SameBefore(ws, r, i, k - 1); }
  }

  /** So does a block of the window itself that does not yet lie over the event. */
  lemma FillingStep(ws: seq<Window>, i: nat, e: Block, company: bool)
    requires i < |ws| && FirstFit(ws) == i && Meets(ws[i], e)
    requires TakesTime(e) && Carve(ReachTask(ws, i, e, i, company), ws[i]).end <= e.start
    ensures var r := Shrunk(ReachTask(ws, i, e, i, company), ws);
      Usable(r[i]) && Meets(r[i], e) && TasksTo(r, i, e) == TasksTo(ws, i, e) - 1
  {
    var t := ReachTask(ws, i, e, i, company);
    var left, go := Minutes(ws[i]), UpTo(ws[i], e);
    CarveFits(t, ws[i]);
    FillCounts(left, go);
    var r := Shrunk(t, ws);
    assert UpTo(r[i], e) == go - FillMinutes(left, go);
    SameBefore(ws, r, i, i);
  }

  lemma {:induction false} BeforeNonNegative(ws: seq<Window>, i: nat, k: nat)
    requires k <= i < |ws|
    ensures BlocksBefore(ws, |ws|, i, k) >= 0
  {
    if k > 0 { BeforeNonNegative(ws, i, k - 1); }
  }

  /** The next block lies over the event, or brings it one task nearer. */
  lemma ReachStep(ws: seq<Window>, i: nat, e: Block, company: bool)
    requires TakesTime(e) && i < |ws| && Usable(ws[i]) && Meets(ws[i], e)
    ensures FirstFit(ws) <= i
    ensures var n := FirstFit(ws); var t := ReachTask(ws, i, e, n, company); var r := Shrunk(t, ws);
      if n == i && Carve(t, ws[n]).end > e.start then !Apart(e, Span(Carve(t, ws[n])))
      else Usable(r[i]) && Meets(r[i], e) && TasksTo(r, i, e) == TasksTo(ws, i, e) - 1
  {
    var n := FirstFit(ws);
    var t := ReachTask(ws, i, e, n, company);
    CarveFits(t, ws[n]);
    if n < i {
      PassingStep(ws, i, e, company);
    } else if Carve(t, ws[n]).end <= e.start {
      FillingStep(ws, i, e, company);
    }
  }

  lemma OverNow(ws: seq<Window>, i: nat, e: Block, rounds: nat, company: bool)
    requires i < |ws| && rounds > 0 && FirstFit(ws) < |ws|
    requires !Apart(e, Span(Carve(ReachTask(ws, i, e, FirstFit(ws), company), ws[FirstFit(ws)])))
    ensures Over(Allot(ReachTasks(ws, i, e, rounds, company), ws).placed, 0, e)
  {
    ReachTasksFirst(ws, i, e, rounds, company);
  }

  lemma OverLater(ws: seq<Window>, i: nat, e: Block, rounds: nat, company: bool, a: nat)
    requires i < |ws| && rounds > 0 && FirstFit(ws) < |ws|
    requires var r := Shrunk(ReachTask(ws, i, e, FirstFit(ws), company), ws);
      Over(Allot(ReachTasks(r, i, e, rounds - 1, company), r).placed, a, e)
    ensures Over(Allot(ReachTasks(ws, i, e, rounds, company), ws).placed, a + 1, e)
  {
    ReachTasksFirst(ws, i, e, rounds, company);
  }

  lemma TasksToPositive(ws: seq<Window>, i: nat, e: Block)
    requires i < |ws|
    ensures TasksTo(ws, i, e) >= 1
  {
    BeforeNonNegative(ws, i, i);
  }

  /** The filling tasks put a block over the event. */
  lemma {:induction false} ReachTasksCover(ws: seq<Window>, i: nat, e: Block, rounds: nat, company: bool)
    returns (a: nat)
    requires TakesTime(e) && i < |ws| && Usable(ws[i]) && Meets(ws[i], e) && TasksTo(ws, i, e) <= rounds
    ensures Over(Allot(ReachTasks(ws, i, e, rounds, company), ws).placed, a, e)
    decreases rounds
  {
    TasksToPositive(ws, i, e);
    ReachStep(ws, i, e, company);
    var n := FirstFit(ws);
    var t := ReachTask(ws, i, e, n, company);
    if n == i && Carve(t, ws[n]).end > e.start {
      OverNow(ws, i, e, rounds, company);
      a := 0;
    } else {
      a := ReachTasksCover(Shrunk(t, ws), i, e, rounds - 1, company);
      OverLater(ws, i, e, rounds, company, a);
      a := a + 1;
    }
  }

  /** These tasks, if they are at most `n`, get slots clear of the event. */
  ghost predicate ClearWithin(ws: seq<Window>, n: nat, e: Block, tasks: seq<Task>) {
    |tasks| <= n ==> forall b :: b in Blocks(Allot(tasks, ws).placed) ==> Apart(e, Span(b))
  }

  lemma ReachedTasks(ws: seq<Window>, n: nat, e: Block, company: bool) returns (tasks: seq<Task>)
    requires TakesTime(e) && !OutOfReach(ws, n, e)
    ensures |tasks| <= n && !ClearWithin(ws, n, e, tasks)
    ensures forall t :: t in tasks ==> t.company == company && !t.flexible
  {
    var i :| 0 <= i < |ws| && Usable(ws[i]) && Meets(ws[i], e) && TasksTo(ws, i, e) <= n;
    tasks := ReachTasks(ws, i, e, n, company);
    ReachTasksAre(ws, i, e, n, company);
    var a := ReachTasksCover(ws, i, e, n, company);
    var bs := Blocks(Allot(tasks, ws).placed);
    assert bs[a] in bs;
  }

  lemma OutOfReachIsClear(ws: seq<Window>, n: nat, e: Block, tasks: seq<Task>)
    requires TakesTime(e) && OutOfReach(ws, n, e)
    ensures ClearWithin(ws, n, e, tasks)
  {
    var placed := Allot(tasks, ws).placed;
    if |tasks| <= n {
      forall b | b in Blocks(placed) ensures Apart(e, Span(b)) {
        var a :| 0 <= a < |placed| && Blocks(placed)[a] == b;
        if Over(placed, a, e) { OverTakesFewest(tasks, ws, a, e); }
      }
    }
  }

  /** Whatever at most `n` tasks come, no slot of a pool lies over an event that takes time, exactly when
      every usable window that meets it needs more than `n` tasks to be filled up to it. */
  lemma PoolClearIff(ws: seq<Window>, n: nat, e: Block)
    requires TakesTime(e)
    ensures (forall tasks :: ClearWithin(ws, n, e, tasks)) <==> OutOfReach(ws, n, e)
  {
    if OutOfReach(ws, n, e) {
      forall tasks ensures ClearWithin(ws, n, e, tasks) { OutOfReachIsClear(ws, n, e, tasks); }
    } else {
      var tasks := ReachedTasks(ws, n, e, false);
    }
  }

  // ---------------------------------------------------------------------------------------------
  // The day
  // ---------------------------------------------------------------------------------------------

  /** With these tasks every company block of the day is clear of the event. */
  ghost predicate CompanyClear(r: Request, e: Block, tasks: seq<Task>) {
    forall b :: b in r.(tasks := tasks).Plan().blocks && b.task.company ==> Apart(e, Span(b))
  }

  lemma CompanyByPool(r: Request, e: Block, tasks: seq<Task>)
    requires r.workMode
    ensures CompanyClear(r, e, tasks) <==>
      ClearWithin(WorkWindows(r.schedule), MAXIMUM_TASKS, e, r.(tasks := tasks).CompanyTasks())
  {
    var day := r.(tasks := tasks);
    var company := Blocks(Allot(day.CompanyTasks(), WorkWindows(r.schedule)).placed);
    var others := Blocks(Allot(day.OtherTasks(), day.Free()).placed);
    SameElements(company + others, FocusStartsBefore);
    forall b | b in company ensures b.task.company && b in day.Plan().blocks { CompanyBlocksInWork(day, b); }
    forall b | b in others ensures !b.task.company { OtherBlocksAvoidAll(day, b); }
  }

  /** Work mode: for every task list all company blocks are clear of an event that takes time, lunch for
      one, exactly when every usable work window that meets it needs more than six tasks to be filled up
      to it. */
  lemma CompanyClearIff(r: Request, e: Block)
    requires r.workMode && TakesTime(e)
    ensures (forall tasks :: CompanyClear(r, e, tasks)) <==> OutOfReach(WorkWindows(r.schedule), MAXIMUM_TASKS, e)
  {
    var ws := WorkWindows(r.schedule);
    if OutOfReach(ws, MAXIMUM_TASKS, e) {
      forall tasks ensures CompanyClear(r, e, tasks) {
        OutOfReachIsClear(ws, MAXIMUM_TASKS, e, r.(tasks := tasks).CompanyTasks());
        CompanyByPool(r, e, tasks);
      }
    } else {
      var tasks := ReachedTasks(ws, MAXIMUM_TASKS, e, true);
      PoolOfTasks(r, tasks, true);
      CompanyByPool(r, e, tasks);
      assert !CompanyClear(r, e, tasks);
    }
  }
}
