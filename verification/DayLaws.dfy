/** The focus blocks of a day in plain numbers
    (apps/planning-agent/src/yule_planning/schedule.py, `build_focus_blocks`): seconds from midnight of the
    plan date, with the day ending at 82800. */
module DayLaws {
  import opened FocusBlocks
  import opened Sequences
  import opened Sorting
  import opened Windows
  import opened Wrappers

  // ---------------------------------------------------------------------------------------------
  // Lunch
  // ---------------------------------------------------------------------------------------------

  const NO_LUNCH := Lunch(None, 0)

  /** A plan depends on the schedule and on lunch through these alone. */
  lemma SamePlan(r: Request, r': Request)
    requires r' == r.(schedule := r'.schedule, lunch := r'.lunch) && r'.Occupied() == r.Occupied()
    requires r.workMode ==> WorkEvents(r'.schedule) == WorkEvents(r.schedule)
    ensures r'.Plan() == r.Plan()
  {
    assert r'.Schedulable() == r.Schedulable() && r'.Free() == r.Free();
  }

  /** The request with one more event and without lunch. */
  function WithEvent(r: Request, e: Block): Request {
    r.(schedule := r.schedule + [e], lunch := NO_LUNCH)
  }

  lemma LunchIsOccupied(r: Request, e: Block)
    requires LunchBlock(r.lunch) == [e] && !e.work
    ensures WithEvent(r, e).Occupied() == r.Occupied() && WorkEvents(WithEvent(r, e).schedule) == WorkEvents(r.schedule)
  {
    SelectLast(r.schedule, e, IsWork);
    SelectLast(r.schedule, e, IsNotWork);
    assert LunchBlock(NO_LUNCH) == [];
  }

  lemma OccupiedLunchIsAnEvent(r: Request, e: Block)
    requires LunchBlock(r.lunch) == [e] && !e.work
    ensures WithEvent(r, e).Plan() == r.Plan()
  {
    LunchIsOccupied(r, e);
    SamePlan(r, WithEvent(r, e));
  }

  /** Lunch, when there is one, counts as one more event that is not work. */
  lemma LunchIsAnEvent(r: Request)
    requires r.lunch.start.Some? && r.lunch.minutes > 0
    ensures var s := r.lunch.start.value;
      r.Plan() == WithEvent(r, Block(s, s + 60 * r.lunch.minutes, false)).Plan()
  {
    var e := Block(r.lunch.start.value, r.lunch.start.value + 60 * r.lunch.minutes, false);
    assert LunchBlock(r.lunch) == [e];
    OccupiedLunchIsAnEvent(r, e);
  }

  /** Without a start, or with no minutes, there is no lunch. */
  lemma NoLunchIsNoEvent(r: Request)
    requires r.lunch.start == None || r.lunch.minutes <= 0
    ensures r.Plan() == r.(lunch := NO_LUNCH).Plan()
  {
    SamePlan(r, r.(lunch := NO_LUNCH));
  }

  /** In free mode every block, and in work mode every block that is not for a company task, keeps out of
      the minutes of lunch. */
  lemma BlocksKeepOutOfLunch(r: Request, b: Focus)
    requires r.lunch.start.Some? && r.lunch.minutes > 0
    requires b in r.Plan().blocks && (r.workMode ==> !b.task.company)
    ensures var s := r.lunch.start.value; b.end <= s || s + 60 * r.lunch.minutes <= b.start
  {
    var e := Block(r.lunch.start.value, r.lunch.start.value + 60 * r.lunch.minutes, false);
    assert LunchBlock(r.lunch) == [e];
    BlocksKeepOutOfLunchEvent(r, b, e);
  }

  lemma BlocksKeepOutOfLunchEvent(r: Request, b: Focus, e: Block)
    requires LunchBlock(r.lunch) == [e] && !e.work
    requires b in r.Plan().blocks && (r.workMode ==> !b.task.company)
    ensures b.end <= e.start || e.end <= b.start
  {
    OccupiedLunchIsAnEvent(r, e);
    BlocksKeepOutOfEvents(WithEvent(r, e), b, e);
  }

  // ---------------------------------------------------------------------------------------------
  // Events, tasks and lengths
  // ---------------------------------------------------------------------------------------------

  /** A block keeps out of every event, except that in free mode events that are work do not count, and in
      work mode a block for a company task may lie over any event. */
  lemma BlocksKeepOutOfEvents(r: Request, b: Focus, e: Block)
    requires b in r.Plan().blocks && e in r.schedule
    requires if r.workMode then !b.task.company else !e.work
    ensures b.end <= e.start || e.end <= b.start
  {
    if r.workMode { WorkBlocksKeepClear(r, b); } else { FreeBlocksKeepClear(r, b); }
    assert e in r.schedule + LunchBlock(r.lunch);
    assert Apart(e, Span(b));
  }

  /** In work mode a block for a company task lies inside one event that is work. */
  lemma CompanyBlocksKeepToWork(r: Request, b: Focus)
    requires r.workMode && b in r.Plan().blocks && b.task.company
    ensures exists e :: e in r.schedule && e.work && e.start <= b.start && b.end <= e.end
  {
    WorkBlocksKeepClear(r, b);
    var e :| e in r.schedule && e.work && Within(Span(b), Window(e.start, e.end));
  }

  /** Free mode goes by the events that are not work. */
  lemma FreeModeIgnoresWork(r: Request, before: seq<Block>, e: Block, after: seq<Block>)
    requires !r.workMode && e.work && r.schedule == before + [e] + after
    ensures r.Plan() == r.(schedule := before + after).Plan()
  {
    SelectAppend(before + [e], after, IsNotWork);
    SelectLast(before, e, IsNotWork);
    SelectAppend(before, after, IsNotWork);
    SamePlan(r, r.(schedule := before + after));
  }

  /** A block is for one of the tasks given that is not flexible, and takes 30 to 120 whole minutes. */
  lemma BlocksAreForTasks(r: Request, b: Focus)
    requires b in r.Plan().blocks
    ensures b.task in r.tasks && !b.task.flexible
    ensures 1800 <= b.end - b.start <= 7200 && (b.end - b.start) % 60 == 0
  {
    if r.workMode {
      var company, others := Allot(r.CompanyTasks(), WorkWindows(r.schedule)), Allot(r.OtherTasks(), r.Free());
      SameElements(Blocks(company.placed) + Blocks(others.placed), FocusStartsBefore);
      if b in Blocks(company.placed) {
        PlacedIsOffered(r.CompanyTasks(), WorkWindows(r.schedule), b);
      } else {
        PlacedIsOffered(r.OtherTasks(), r.Free(), b);
      }
    } else {
      PlacedIsOffered(FirstTasks(r.Schedulable()), r.Free(), b);
    }
    assert b.task in r.Schedulable();
  }

  lemma {:induction false} PlacedIsOffered(tasks: seq<Task>, ws: seq<Window>, b: Focus)
    requires b in Blocks(Allot(tasks, ws).placed)
    ensures b.task in tasks
    ensures 1800 <= b.end - b.start <= 7200 && (b.end - b.start) % 60 == 0
    decreases tasks
  {
    var i := FirstFit(ws);
    if i == |ws| {
      PlacedIsOffered(tasks[1..], ws, b);
    } else {
      CarveFits(tasks[0], ws[i]);
      var c := Carve(tasks[0], ws[i]);
      if b != c {
        var shrunk := ws[i := Window(c.end, ws[i].end)];
        var later := Allot(tasks[1..], shrunk).placed;
        assert Blocks(Allot(tasks, ws).placed) == [c] + Blocks(later);
        PlacedIsOffered(tasks[1..], shrunk, b);
      }
    }
  }

  /** The tasks of a list that are not flexible and, if that is asked, for the company or not. */
  function Eligible(tasks: seq<Task>, company: Option<bool>): seq<Task> {
    if tasks == [] then []
    else
      (if !tasks[0].flexible && (company == None || tasks[0].company == company.value) then [tasks[0]] else [])
      + Eligible(tasks[1..], company)
  }

  lemma {:induction false} EligibleAre(tasks: seq<Task>)
    ensures Select(tasks, IsSchedulable) == Eligible(tasks, None)
    ensures Select(Select(tasks, IsSchedulable), IsCompany) == Eligible(tasks, Some(true))
    ensures Select(Select(tasks, IsSchedulable), IsOther) == Eligible(tasks, Some(false))
  {
    if tasks != [] {
      var t, rest := tasks[0], Select(tasks[1..], IsSchedulable);
      EligibleAre(tasks[1..]);
      if t.flexible {
        assert Select(tasks, IsSchedulable) == rest;
      } else {
        assert Select(tasks, IsSchedulable) == [t] + rest && ([t] + rest)[1..] == rest;
      }
    }
  }

  /** Tasks are offered in the order given: in free mode the first six that are not flexible, in work mode
      the first six of those for the company to the work events, and the first six others to the free
      windows. */
  lemma TasksAreOfferedInOrder(r: Request)
    ensures FirstTasks(r.Schedulable()) == FirstSix(Eligible(r.tasks, None))
    ensures r.CompanyTasks() == FirstSix(Eligible(r.tasks, Some(true)))
    ensures r.OtherTasks() == FirstSix(Eligible(r.tasks, Some(false)))
  {
    EligibleAre(r.tasks);
    SixAreOffered(Eligible(r.tasks, None));
    SixAreOffered(Eligible(r.tasks, Some(true)));
    SixAreOffered(Eligible(r.tasks, Some(false)));
  }

  function FirstSix(tasks: seq<Task>): seq<Task> { if |tasks| < 6 then tasks else tasks[..6] }

  /** Six tasks are offered, or all when there are fewer. */
  lemma SixAreOffered(tasks: seq<Task>)
    ensures FirstTasks(tasks) == FirstSix(tasks)
  {}

  /** The minutes a task gets of so many that are there: what it asks for, but at least 30 and at most 120. */
  function MinutesFor(t: Task, there: int): int {
    var wanted := if t.estimatedMinutes < 30 then 30 else if t.estimatedMinutes > 120 then 120 else t.estimatedMinutes;
    if there < wanted then there else wanted
  }

  /** In free mode the first task that is not flexible gets the start of the first free window. */
  lemma FirstTaskTakesFirstWindow(r: Request)
    requires !r.workMode && r.Schedulable() != [] && r.Free() != []
    ensures var t, w := r.Schedulable()[0], r.Free()[0];
      && r.Plan().blocks != []
      && r.Plan().blocks[0] == Focus(w.start, w.start + 60 * MinutesFor(t, (w.end - w.start) / 60), t)
  {
    var tasks, ws := FirstTasks(r.Schedulable()), r.Free();
    WindowsAreFree(r.Occupied(), r.dayStart);
    assert ws[0] in ws && FirstFit(ws) == 0;
    var placed := Allot(tasks, ws).placed;
    assert placed[0] == Placed(0, Carve(tasks[0], ws[0]));
  }

  /** At most six blocks in free mode, and six for company tasks and six for others in work mode. */
  lemma AtMostSixAPool(r: Request)
    ensures |r.Plan().blocks| <= if r.workMode then 12 else 6
  {
    if r.workMode {
      var company, others := Allot(r.CompanyTasks(), WorkWindows(r.schedule)), Allot(r.OtherTasks(), r.Free());
      PlacedAreFew(r.CompanyTasks(), WorkWindows(r.schedule));
      PlacedAreFew(r.OtherTasks(), r.Free());
      SameElements(Blocks(company.placed) + Blocks(others.placed), FocusStartsBefore);
    } else {
      PlacedAreFew(FirstTasks(r.Schedulable()), r.Free());
    }
  }

  lemma {:induction false} PlacedAreFew(tasks: seq<Task>, ws: seq<Window>)
    ensures |Allot(tasks, ws).placed| <= |tasks|
    decreases tasks
  {
    if tasks != [] {
      var i := FirstFit(ws);
      PlacedAreFew(tasks[1..], if i == |ws| then ws else ws[i := Window(Carve(tasks[0], ws[i]).end, ws[i].end)]);
    }
  }

  // ---------------------------------------------------------------------------------------------
  // Free windows
  // ---------------------------------------------------------------------------------------------

  /** A free window lies in the day, lasts at least 30 minutes, and no event reaches into it. */
  lemma WindowIsFreeTime(schedule: seq<Block>, dayStart: int, w: Window)
    requires w in FreeWindows(schedule, dayStart)
    ensures dayStart <= w.start && w.start + 1800 <= w.end <= 82800
    ensures forall e :: e in schedule ==> e.end <= w.start || w.end <= e.start
  {
    WindowsAreFree(schedule, dayStart);
    forall e | e in schedule ensures e.end <= w.start || w.end <= e.start { assert Apart(e, w); }
  }

  /** Any 30 minutes of the day that no event reaches into lie in a free window. */
  lemma FreeTimeIsInWindow(schedule: seq<Block>, dayStart: int, start: int, end: int)
    requires dayStart <= start && start + 1800 <= end <= 82800
    requires forall e :: e in schedule ==> e.end <= start || end <= e.start
    ensures exists w :: w in FreeWindows(schedule, dayStart) && w.start <= start && end <= w.end
  {
    var t := Window(start, end);
    assert Clear(schedule, t);
    WindowsLoseNothing(schedule, dayStart, t);
    var w :| w in FreeWindows(schedule, dayStart) && Within(t, w);
  }

  // ---------------------------------------------------------------------------------------------
  // The minutes reported
  // ---------------------------------------------------------------------------------------------

  /** The whole minutes of windows add up. */
  lemma {:induction false} MinutesAddUp(a: seq<Window>, b: seq<Window>)
    ensures TotalMinutes(a + b) == TotalMinutes(a) + TotalMinutes(b)
    ensures forall w :: 60 * TotalMinutes([w]) <= w.end - w.start < 60 * TotalMinutes([w]) + 60
  {
    forall w ensures 60 * TotalMinutes([w]) <= w.end - w.start < 60 * TotalMinutes([w]) + 60 {
      assert [w][1..] == [];
    }
    if a == [] {
      assert a + b == b;
    } else {
      assert (a + b)[1..] == a[1..] + b;
      MinutesAddUp(a[1..], b);
    }
  }

  lemma {:induction false} SortedMinutes(ws: seq<Window>)
    ensures TotalMinutes(StableSort(ws, WindowStartsBefore)) == TotalMinutes(ws)
  {
    if ws != [] {
      SortedMinutes(ws[1..]);
      InsertedMinutes(ws[0], StableSort(ws[1..], WindowStartsBefore));
    }
  }

  lemma {:induction false} InsertedMinutes(w: Window, ws: seq<Window>)
    ensures TotalMinutes(Insert(w, ws, WindowStartsBefore)) == Minutes(w) + TotalMinutes(ws)
  {
    if ws == [] || WindowStartsBefore(w, ws[0]) {
      assert ([w] + ws)[1..] == ws;
    } else {
      var rest := Insert(w, ws[1..], WindowStartsBefore);
      InsertedMinutes(w, ws[1..]);
      assert ([ws[0]] + rest)[1..] == rest;
    }
  }

  /** The minutes reported are those of the free windows, and in work mode those of the events that are
      work as well, in whatever order these are listed. */
  lemma ReportedMinutes(r: Request)
    ensures var free := TotalMinutes(FreeWindows(r.Occupied(), r.dayStart));
      r.Plan().available == if r.workMode then free + TotalMinutes(AsWindows(WorkEvents(r.schedule))) else free
  {
    SortedMinutes(AsWindows(WorkEvents(r.schedule)));
  }
}
