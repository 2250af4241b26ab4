# Verified models of the planning, goal, memory, recall, toolchain and forge decisions

This project models the decision code of six components and proves what they promise. Each module
follows one source file or one pair of files; code that changes state in place is a class, an array
method or a loop, and every such method is tied to a function whose properties are proved as lemmas.

- **Day scheduler** (`Windows`, `FocusBlocks`, `FocusReach`, `Checkpoints`): a sweep computes the free
  windows of a day, first-fit cuts focus blocks out of them in place, and reminders are derived from
  time ranges written in event descriptions.
- **Goal plane** (`GoalModel`, `GoalPlanning`, `GoalTick`, `GoalRest`): long-term goals with a status
  matrix, append-only evidence, packet accounting, bounded replanning, the continuation tick that
  advances decomposed goals up to a bound, and the stores in which ticks come to rest.
- **Memory** (`MemoryModel`, `Relevance`, `MemoryPack`, `TopicIndex`): relevance scores, the ranked and
  deduplicated memory pack, and the inverse word index.
- **Session recall** (`Recall`): which open session a message is attached to.
- **Toolchain switch** (`Toolchain`): detection, profile, plan, approval gate, execution and
  re-verification against a version manager.
- **Forge resolver** (`Catalog`, `Resolver`): the skill catalog with its overlay, and the choice of
  skills for a request.

`DayLaws`, `GoalTurn`, `MemoryLaws`, `RecallLaws` and `ResolverLaws` say what the results of these are
in terms of their inputs alone: numbers, positions in lists, fields of records.

`Sequences`, `Sorting`, `Text` and `Wrappers` hold shared facts. Python's stable sort is a function in
`Sorting`, with lemmas that it yields a sorted permutation, that a second sort refines the first, and
that a sorted permutation is unique when ties are identical. Times are whole seconds on one timeline;
scores are reals.

## Where the code and its description differ

The model follows the code.

- Continuation is described as completing a parent when every child is done; the code also counts
  abandoned children as finished (`AbandonedChildCompletes`). `progress.complete` does not;
  `ProgressMatchesContinuation` says exactly when the two agree.
- The tick is described as closing a goal only when `is_goal_complete` is true. It asks that of leaves
  only. A plan is closed when its steps are over, even with a packet of its own that never ran
  (`UnfinishedPlanIsClosed`); it is then complete exactly when it has proposed packets and all of them
  ran (`ClosedPlanCompleteIff`).
- The tick cuts the list of active plans at its bound before it asks for their moves. Plans that wait
  use up the bound, and a plan behind them that could advance is never reached (`CrowdStarves`). Every
  one of up to `n` active plans is reached, in every store, exactly when the bound is at least `n`
  (`NoneStarvesIff`).
- `_satisfies` is described as a match on whole dotted version parts; it is a string prefix test, so
  "200" satisfies the pin "20" (`TwoHundredSatisfiesTwenty`; `SatisfiesDottedIff` says exactly when the
  two differ).
- `_invert` is meant to put later timestamps first. For two non-empty strings it does so exactly when
  neither is a proper prefix of the other (`InvertReversesIff`, `PrefixKeepsItsPlace`), and it puts an
  empty timestamp before every other one that starts with a code point below U+100000
  (`EmptyInvertsFirstIff` covers the rest).
- Preferring end times near the event changes nothing: the earliest reading after the start always
  wins. The clause about completeness in `is_stuck` never decides. The branch of `apply_switch` that
  skips gated actions is never reached.
- A switch reports success from exit codes alone; that the tools then match needs a manager whose
  successful commands touch no tool but their own, and whose successful uses satisfy the pin.
- Work events that overlap each other can be double-booked (`OverlappingWorkEventsDoubleBook`): some
  task list makes two blocks overlap exactly when the six tasks a pool is offered are enough to fill
  one of two overlapping windows past the start of the other, use up every window before that other,
  and put a block into it (`WorkModeTimetableIff`).
- An event of zero length splits a window (`ZeroLengthEventSplitsWindow`), and an event that ends
  before it starts can make two windows overlap (`InvertedEventOverlapsWindows`);
  `ZeroLengthEventsMatterIff` and `WindowsOrderedIff` say exactly when.

Company blocks are kept inside work events and nothing else is asked of them: they may lie over lunch
(`CompanyBlockOverLunch`) or over a meeting nested in a work event. `CompanyClearIff` says exactly for
which events no task list does that.

## Model

| member | source | states |
|---|---|---|
| Windows.AvailableWindows | apps/planning-agent/src/yule_planning/schedule.py:338-372 | the sweep loop computes the free windows that the lemmas below characterise |
| Windows.WindowsAreFree | apps/planning-agent/src/yule_planning/schedule.py:359-370 | for any events at all, every window lies in the day, lasts at least 30 minutes and no event reaches into it |
| Windows.WindowsLoseNothing | apps/planning-agent/src/yule_planning/schedule.py:359-370 | for any events at all, every free stretch of 30 minutes or more lies inside one window |
| Windows.WindowsStartInOrder | apps/planning-agent/src/yule_planning/schedule.py:358-372 | for any events at all, the windows come in order of their starts |
| Windows.WindowsOrderedIff | apps/planning-agent/src/yule_planning/schedule.py:358-372 | for any events at all, the windows come in time order and are disjoint exactly when each event that closes one starts no later than the events have reached when a later one opens |
| Windows.WindowsAreOrdered | apps/planning-agent/src/yule_planning/schedule.py:358-372 | in particular, they do if no event ends before it starts |
| Windows.InvertedEventOverlapsWindows | apps/planning-agent/src/yule_planning/schedule.py:362-370 | one event that ends before it starts gives two overlapping windows |
| Windows.WindowsAreMaximalGaps | apps/planning-agent/src/yule_planning/schedule.py:338-372 | for events of positive length the windows are exactly the maximal event-free gaps of at least 30 minutes |
| Windows.SameWindows | apps/planning-agent/src/yule_planning/schedule.py:338-372 | two schedules that leave each other's windows free have the same windows |
| Windows.WindowsDependOnUnion | apps/planning-agent/src/yule_planning/schedule.py:338-372 | the windows depend only on which seconds are busy, not on order, overlap or number of events |
| Windows.ZeroLengthEventSplitsWindow | apps/planning-agent/src/yule_planning/schedule.py:362-370 | one event of no length splits an empty day into two windows |
| Windows.ZeroLengthEventsMatterIff | apps/planning-agent/src/yule_planning/schedule.py:362-367 | zero-length events change the windows exactly when one lies strictly inside a window of the other events |
| FocusBlocks.FirstFit | apps/planning-agent/src/yule_planning/schedule.py:393-396 | picks the first window with 30 whole minutes left, none if there is none |
| FocusBlocks.AssignTaskBlock | apps/planning-agent/src/yule_planning/schedule.py:389-411 | places a task at the front of the first usable window, shrinks that window in place and touches no other; a refused task changes nothing |
| FocusBlocks.AllotTasks | apps/planning-agent/src/yule_planning/schedule.py:66-71 | repeated placement over one shared buffer is the allotment that the lemmas below are about |
| FocusBlocks.AllotKeepsWindow | apps/planning-agent/src/yule_planning/schedule.py:66-71 | a window keeps its end, its start only moves forward and never past its end |
| FocusBlocks.AllotConserves | apps/planning-agent/src/yule_planning/schedule.py:389-411 | per window, the time lost is exactly the time of the blocks cut from it |
| FocusBlocks.AllotCuts | apps/planning-agent/src/yule_planning/schedule.py:398-401 | every block lasts 30 to 120 minutes and lies in the part its window lost |
| FocusBlocks.AllotFollows | apps/planning-agent/src/yule_planning/schedule.py:398-401 | two blocks of one window follow each other |
| FocusBlocks.AllotGivesWanted | apps/planning-agent/src/yule_planning/schedule.py:398-399 | a block is as long as its task's clamped estimate, and shorter only when it uses its window up to the last whole minute |
| FocusBlocks.WithinReportedMinutesIff | apps/planning-agent/src/yule_planning/schedule.py:62-71 | the minutes cut from a window stay within those reported for it exactly when the window does not end before it starts |
| FocusBlocks.AllotServesPrefix | apps/planning-agent/src/yule_planning/schedule.py:68-71 | the tasks served are a prefix of those offered, and one is refused only when no window has 30 minutes left |
| FocusBlocks.AllotMovesForward | apps/planning-agent/src/yule_planning/schedule.py:393-396 | windows are used in order; a window passed over stays exhausted |
| FocusBlocks.AllotIsSafe | apps/planning-agent/src/yule_planning/schedule.py:66-71 | every block has a legal length, lies inside one of the initial windows and is for an offered task |
| FocusBlocks.AllotIsApart | apps/planning-agent/src/yule_planning/schedule.py:98-110 | over disjoint usable windows the blocks are pairwise disjoint |
| FocusBlocks.CrossingTakesFewest | apps/planning-agent/src/yule_planning/schedule.py:98-110 | if a block reaches past the start of a later window that is cut from too, the two windows clash and at least the fewest tasks that can do this were offered |
| FocusBlocks.ClashIsTaken | apps/planning-agent/src/yule_planning/schedule.py:98-110 | the fewest tasks suffice: some list of that length gets two overlapping blocks |
| FocusBlocks.UncrowdedIsInTurn | apps/planning-agent/src/yule_planning/schedule.py:98-110 | in a pool whose clashes need more than `n` tasks, any `n` tasks get disjoint blocks in time order |
| FocusBlocks.NeverDoubleBookedIff | apps/planning-agent/src/yule_planning/schedule.py:98-110 | for windows sorted by start and any cap `n` on the tasks offered: the blocks are disjoint for every task list exactly when every two clashing windows need more than `n` tasks to clash |
| FocusBlocks.AllotIsChronological | apps/planning-agent/src/yule_planning/schedule.py:66-71 | over ordered windows the more important task gets the earlier slot |
| FocusBlocks.BuildFocusBlocks | apps/planning-agent/src/yule_planning/schedule.py:44-113 | both modes compute the plan that the lemmas below and those of `DayLaws` are about |
| FocusBlocks.FreeBlocksKeepClear | apps/planning-agent/src/yule_planning/schedule.py:58-72 | free mode, any events: a block is clear of lunch and of every event that is not work |
| FocusBlocks.FreeModeTimetable | apps/planning-agent/src/yule_planning/schedule.py:58-72 | free mode: blocks of legal length, clear of lunch and of every event that is not work; in time order and disjoint if none of those ends before it starts |
| FocusBlocks.FreeModeTimetableIff | apps/planning-agent/src/yule_planning/schedule.py:58-72 | free mode, any events: the blocks are a timetable for every task list exactly when the free windows cannot clash within six tasks |
| FocusBlocks.WorkPlanByPools | apps/planning-agent/src/yule_planning/schedule.py:98-113 | work mode, any events: the plan is a timetable exactly when neither pool gives overlapping blocks |
| FocusBlocks.WorkModeTimetableIff | apps/planning-agent/src/yule_planning/schedule.py:74-113 | work mode, any events: the blocks are a timetable for every task list exactly when neither the work events nor the free windows can clash within six tasks each |
| FocusBlocks.WorkBlocksKeepClear | apps/planning-agent/src/yule_planning/schedule.py:74-113 | work mode, any events: a company block lies inside one work event, any other is clear of lunch and every event |
| FocusBlocks.WorkModeTimetable | apps/planning-agent/src/yule_planning/schedule.py:74-113 | work mode with disjoint work events: blocks in time order, disjoint, of legal length; a company block inside one work event, any other clear of lunch and every event |
| FocusBlocks.FreeModeServesPrefix | apps/planning-agent/src/yule_planning/schedule.py:56-72 | free mode serves a prefix of at most six tasks and leaves one out only when the windows are exhausted |
| FocusBlocks.WorkModeServesPrefixes | apps/planning-agent/src/yule_planning/schedule.py:74-113 | work mode serves a prefix of each pool of at most six tasks, and leaves one out only when that pool is exhausted |
| FocusBlocks.MinutesAreConserved | apps/planning-agent/src/yule_planning/schedule.py:63-113 | the minutes reported are exactly the minutes handed out plus the minutes left |
| FocusBlocks.NeverOverbooked | apps/planning-agent/src/yule_planning/schedule.py:63-113 | the minutes handed out never exceed the minutes reported, unless a work event ends before it starts in work mode |
| FocusBlocks.CompanyBlockOverLunch | apps/planning-agent/src/yule_planning/schedule.py:98-113 | a long company task in a work event is placed over lunch |
| FocusReach.OverTakesFewest | apps/planning-agent/src/yule_planning/schedule.py:98-103 | a block over an event that takes time lies in a usable window that meets it, and at least the fewest tasks that fill the windows up to the event were offered |
| FocusReach.PoolClearIff | apps/planning-agent/src/yule_planning/schedule.py:98-103 | for any cap `n` on the tasks offered: no block lies over the event, for every task list, exactly when every usable window that meets it needs more than `n` tasks to be filled up to it |
| FocusReach.CompanyClearIff | apps/planning-agent/src/yule_planning/schedule.py:74-113 | work mode: for every task list all company blocks are clear of an event that takes time exactly when every usable work window that meets it needs more than six tasks to be filled up to it |
| FocusBlocks.OverlappingWorkEventsDoubleBook | apps/planning-agent/src/yule_planning/schedule.py:78-103 | with two work events at the same time the plan gives two long company tasks the same slot |
| DayLaws.BlocksKeepOutOfLunch | apps/planning-agent/src/yule_planning/schedule.py:116-133 | with a start and `minutes` above zero, every block in free mode, and every block that is not for a company task in work mode, ends by the start of lunch or starts at least 60 times `minutes` seconds after it |
| DayLaws.LunchIsAnEvent | apps/planning-agent/src/yule_planning/schedule.py:58-90 | lunch gives the plan of a request with one more event that is not work, from its start on for 60 times its minutes |
| DayLaws.NoLunchIsNoEvent | apps/planning-agent/src/yule_planning/schedule.py:122-123 | without a start, or with no minutes, the plan is that of a request without lunch |
| DayLaws.BlocksKeepOutOfEvents | apps/planning-agent/src/yule_planning/schedule.py:58-113 | a block ends before an event starts or starts after it ends, except for work events in free mode and for company blocks in work mode |
| DayLaws.FreeModeIgnoresWork | apps/planning-agent/src/yule_planning/schedule.py:59 | in free mode a work event changes nothing, wherever it is listed |
| DayLaws.BlocksAreForTasks | apps/planning-agent/src/yule_planning/schedule.py:56 | a block is for a task of the request that is not flexible and lasts 30 to 120 whole minutes |
| DayLaws.TasksAreOfferedInOrder | apps/planning-agent/src/yule_planning/schedule.py:56-110 | the tasks offered are the first six of those that are not flexible, in the order given: of all in free mode, of the company tasks and of the others in work mode |
| DayLaws.AtMostSixAPool | apps/planning-agent/src/yule_planning/schedule.py:68-110 | at most six blocks in free mode and twelve in work mode |
| DayLaws.FirstTaskTakesFirstWindow | apps/planning-agent/src/yule_planning/schedule.py:389-411 | in free mode the first task that is not flexible gets the start of the first free window, for its estimate clamped to 30 to 120 minutes or all whole minutes there are |
| DayLaws.WindowIsFreeTime | apps/planning-agent/src/yule_planning/schedule.py:359-370 | a free window starts no earlier than the day, lasts 1800 seconds or more, ends by second 82800 and no event reaches into it |
| DayLaws.FreeTimeIsInWindow | apps/planning-agent/src/yule_planning/schedule.py:359-370 | any such stretch lies in a free window |
| DayLaws.MinutesAddUp | apps/planning-agent/src/yule_planning/schedule.py:63 | the minutes of two lists of windows add up, and those of one window are its whole minutes |
| DayLaws.ReportedMinutes | apps/planning-agent/src/yule_planning/schedule.py:63-95 | the minutes reported are those of the free windows, and in work mode those of the work events too, in whatever order these are listed |
| Checkpoints.ReadingsMean | apps/planning-agent/src/yule_planning/schedule.py:481-507 | the candidate times of any token with valid minutes are exactly the clock times it can mean |
| Checkpoints.EndIsEarliest | apps/planning-agent/src/yule_planning/schedule.py:519-529 | an end token resolves to its earliest reading after the start, and to none exactly when there is no such reading |
| Checkpoints.UnmarkedEndResolves | apps/planning-agent/src/yule_planning/schedule.py:491-529 | an unmarked end, whatever its hour, always resolves when the start is on the event's first day |
| Checkpoints.StartIsNearest | apps/planning-agent/src/yule_planning/schedule.py:509-517 | a start resolves near the event whenever some reading is, and to a nearest one among those |
| Checkpoints.StartIs | apps/planning-agent/src/yule_planning/schedule.py:509-517 | of its readings from 300 seconds before the event to 300 seconds after it, or of all if there are none, a start token resolves to the one nearest to the start of the event, the earlier of two equally near |
| Checkpoints.MidnightIs | apps/planning-agent/src/yule_planning/schedule.py:481-507 | hours are counted from the multiple of 86400 seconds at or before the start of the event |
| Checkpoints.SortedByStart | apps/planning-agent/src/yule_planning/schedule.py:156-157 | blocks are listed in order of their starts, none added or lost |
| Checkpoints.ParseExecutionBlocks | apps/planning-agent/src/yule_planning/schedule.py:414-468 | the loop yields the lines' blocks sorted by start, or raises |
| Checkpoints.BlocksAreSaid | apps/planning-agent/src/yule_planning/schedule.py:421-465 | the blocks are exactly those some line says: its resolved start and the earliest later reading of its end |
| Checkpoints.ParsingRaisesIff | apps/planning-agent/src/yule_planning/schedule.py:498-507 | parsing raises exactly when some line has a time with minutes over 59 that is resolved |
| Checkpoints.LineGivesBlockIff | apps/planning-agent/src/yule_planning/schedule.py:430-446 | a line gives at most one block, and none exactly when a side is no time or no reading of its end is after its start |
| Checkpoints.NormalizeLeads | apps/planning-agent/src/yule_planning/schedule.py:206-225 | the leads are exactly the positive ones given, once each, longest first; it raises exactly when one is not an integer |
| Checkpoints.CollectCheckpoints | apps/planning-agent/src/yule_planning/schedule.py:171-200 | the nested loops collect every block's reminders |
| Checkpoints.CheckpointsComplete | apps/planning-agent/src/yule_planning/schedule.py:171-203 | the reminders are exactly one per block and positive lead shorter than the block, strictly inside it, in time order |
| Checkpoints.CheckpointsInOrder | apps/planning-agent/src/yule_planning/schedule.py:202-203 | reminders are listed by their time, and those of one time by the order of their blocks |
| Checkpoints.BuildCheckpoints | apps/planning-agent/src/yule_planning/schedule.py:160-203 | raises exactly on a bad lead, and otherwise returns that complete list |
| GoalModel.Without | packages/forgekit-goal/src/forgekit_goal/models.py:167-170 | unlinking removes exactly one id and keeps a list free of duplicates |
| GoalModel.CreatedIsWellFormed | packages/forgekit-goal/src/forgekit_goal/models.py:112-137 | a created goal is a draft with a stripped, non-empty title and a well-formed record |
| GoalModel.StepKeepsWellFormed | packages/forgekit-goal/src/forgekit_goal/models.py:148-180 | every operation, raising or not, keeps the record well formed and the evidence growing |
| GoalModel.RunKeepsWellFormed | packages/forgekit-goal/src/forgekit_goal/models.py:140-180 | over every run evidence only grows, lists stay free of duplicates, no goal is its own child and a done goal has evidence |
| GoalModel.StatusChangesAreLegal | packages/forgekit-goal/src/forgekit_goal/transitions.py:27-69 | statuses change only along the matrix; done is entered only with evidence, and closed goals only reopen |
| GoalModel.MoveIff | packages/forgekit-goal/src/forgekit_goal/transitions.py:27-69 | which moves are allowed, status by status: done needs evidence, anything else not listed is refused |
| GoalModel.CreateIff | packages/forgekit-goal/src/forgekit_goal/models.py:112-138 | creating a goal raises exactly for a blank title or an unknown mode |
| GoalModel.LinkedAtTheEnd | packages/forgekit-goal/src/forgekit_goal/models.py:159-180 | a new packet or child is linked at the end, a known one not again |
| GoalPlanning.Decompose | packages/forgekit-goal/src/forgekit_goal/planning.py:83-128 | one draft child per titled step, all linked in order, and a plan record; raises exactly on no step, unknown mode or an unusable id |
| GoalPlanning.DecomposedChildren | packages/forgekit-goal/src/forgekit_goal/planning.py:104-128 | each child is a draft with the stripped title and intent of its step, the mode of the parent and nothing linked yet; the parent gets one plan entry |
| GoalPlanning.AdoptedMembers | packages/forgekit-goal/src/forgekit_goal/planning.py:83-128 | linking keeps earlier children, adds every new id and nothing else |
| GoalPlanning.FreshIdsAllLinked | packages/forgekit-goal/src/forgekit_goal/planning.py:83-128 | with new ids every child is linked once, in step order |
| GoalPlanning.TallyPartitions | packages/forgekit-goal/src/forgekit_goal/planning.py:150-172 | total is executed plus blocked plus pending |
| GoalPlanning.AccountingsAgree | packages/forgekit-goal/src/forgekit_goal/planning.py:248-287 | the tally, the pending and blocked id lists and the next step that progress names agree, whenever no child resolves |
| GoalPlanning.CompleteIff | packages/forgekit-goal/src/forgekit_goal/planning.py:175-192 | complete exactly when something counts, all of it ran and something was verified; stuck exactly when some packet is blocked and none pending |
| GoalPlanning.PlanActionIs | packages/forgekit-goal/src/forgekit_goal/planning.py:306-356 | the move concerns the first open child, advances it exactly when it is a draft, and completes only when no child is open |
| GoalPlanning.ProgressMatchesContinuation | packages/forgekit-goal/src/forgekit_goal/planning.py:241-268 | progress and continuation name the same child; progress is complete exactly when the plan is to be completed and no child was abandoned |
| GoalPlanning.AbandonedChildCompletes | packages/forgekit-goal/src/forgekit_goal/planning.py:332-356 | a parent whose one child was abandoned is to be completed, though progress does not call it complete |
| GoalPlanning.ProgressAddsUp | packages/forgekit-goal/src/forgekit_goal/planning.py:241-287 | the counts of a report add up, and the ratio is between 0 and 1 and is 1 exactly when all steps are done |
| GoalPlanning.ProgressCounts | packages/forgekit-goal/src/forgekit_goal/planning.py:241-287 | done and blocked count the positions of children with that status, pending the rest but abandoned ones; for a leaf they count its packets by class |
| GoalPlanning.RatioIsShare | packages/forgekit-goal/src/forgekit_goal/planning.py:266-284 | ratio times total is done, and the ratio of nothing is zero |
| GoalPlanning.NextStepIs | packages/forgekit-goal/src/forgekit_goal/planning.py:251-258 | the next step is the first child neither done nor abandoned |
| GoalPlanning.NextPacketIs | packages/forgekit-goal/src/forgekit_goal/planning.py:271-278 | for a leaf it is the first linked packet that is pending, none exactly when none is |
| GoalPlanning.PacketClasses | packages/forgekit-goal/src/forgekit_goal/planning.py:134-172 | a linked packet counts by the proposal, execution and decision entries that name it, execution winning over decision |
| GoalPlanning.KidsInOrder | packages/forgekit-goal/src/forgekit_goal/planning.py:232-238 | children that resolve come in the order of the plan, others are skipped |
| GoalPlanning.ByIdIsLast | packages/forgekit-goal/src/forgekit_goal/planning.py:248 | an id resolves to the last goal given that has it |
| GoalPlanning.ReplanExactlyWhenStuck | packages/forgekit-goal/src/forgekit_goal/planning.py:335-352 | continuation asks to replan a child exactly when it is blocked, or active and stuck by the replan policy |
| GoalPlanning.StuckByTally | packages/forgekit-goal/src/forgekit_goal/planning.py:448-456 | stuck depends on the tally alone |
| GoalPlanning.BlockedReasonIsLatest | packages/forgekit-goal/src/forgekit_goal/planning.py:396-406 | the reason is that of the latest refusal or escalation, and there is none exactly when there was none |
| GoalPlanning.ReasonIsLatest | packages/forgekit-goal/src/forgekit_goal/planning.py:470-472 | a decision gives the latest reason on record, or the fixed text when that is empty or there is none |
| GoalPlanning.RankIsClass | packages/forgekit-goal/src/forgekit_goal/planning.py:134-172 | the rank of a counted packet is its class |
| GoalPlanning.ClassNeverGoesBack | packages/forgekit-goal/src/forgekit_goal/planning.py:134-172 | over every run a packet moves only from pending to blocked to executed, even when unlinked and linked again |
| GoalPlanning.RetryClears | packages/forgekit-goal/src/forgekit_goal/planning.py:386-485 | a retry drops exactly the blocked packets, keeps the executed ones, counts one attempt and leaves the goal not stuck |
| GoalPlanning.RetriesAreBounded | packages/forgekit-goal/src/forgekit_goal/planning.py:444-485 | however other operations are mixed in, a run retries at most as often as attempts are left |
| GoalPlanning.AttemptsAreReplans | packages/forgekit-goal/src/forgekit_goal/planning.py:444-445 | attempts are the number of positions with a replan entry |
| GoalPlanning.ExhaustedStuckEscalates | packages/forgekit-goal/src/forgekit_goal/planning.py:470-485 | a stuck goal escalates exactly when the attempts are used up |
| GoalTick.ContinuationTicker.constructor | packages/forgekit-runtime/src/forgekit_runtime/runtime/goal_continuation_tick.py:61-84 | holds the store and the two bounds |
| GoalTick.ContinuationTicker.Tick | packages/forgekit-runtime/src/forgekit_runtime/runtime/goal_continuation_tick.py:87-189 | the three passes over the store in place compute the next store that the lemmas below and those of `GoalTurn` are about |
| GoalTick.ContinuationTicker.RollUpFinished | packages/forgekit-runtime/src/forgekit_runtime/runtime/goal_continuation_tick.py:106-124 | every goal is rolled up once, no goal is added or lost |
| GoalTick.ContinuationTicker.ReplanStuck | packages/forgekit-runtime/src/forgekit_runtime/runtime/goal_continuation_tick.py:126-154 | every goal gets its turn once; `GoalTurn.StuckLeafRetries` and `StuckLeafEscalates` say what it is |
| GoalTick.ContinuationTicker.AdvancePlans | packages/forgekit-runtime/src/forgekit_runtime/runtime/goal_continuation_tick.py:156-185 | the listed parents are driven one after the other over the changing store |
| GoalTick.RollUpMoves | packages/forgekit-runtime/src/forgekit_runtime/runtime/goal_continuation_tick.py:106-124 | a finished active leaf is always closed with a verification record, anything else is untouched |
| GoalTick.EscalationMoves | packages/forgekit-runtime/src/forgekit_runtime/runtime/goal_continuation_tick.py:146-153 | an escalation is never refused by the matrix |
| GoalTick.NothingIsLeftStuck | packages/forgekit-runtime/src/forgekit_runtime/runtime/goal_continuation_tick.py:131-154 | after its turn no active leaf is stuck |
| GoalTurn.StuckLeafRetries | packages/forgekit-runtime/src/forgekit_runtime/runtime/goal_continuation_tick.py:138-145 | an active leaf with a refused packet, none pending and fewer replan entries than the bound: after the tick it is active, has lost exactly its refused packets, and has one more replan entry |
| GoalTurn.StuckLeafEscalates | packages/forgekit-runtime/src/forgekit_runtime/runtime/goal_continuation_tick.py:146-154 | with as many replan entries as the bound it awaits approval after the tick, with its packets and one more blocked entry |
| GoalTurn.FinishedLeafCloses | packages/forgekit-runtime/src/forgekit_runtime/runtime/goal_continuation_tick.py:106-124 | an active leaf whose counted packets all ran, with a verification on record, is done after the tick, with one more verification entry |
| GoalTurn.OtherLeafWaits | packages/forgekit-runtime/src/forgekit_runtime/runtime/goal_continuation_tick.py:106-154 | any other active leaf is the same after the tick |
| GoalTurn.DrivenIff | packages/forgekit-runtime/src/forgekit_runtime/runtime/goal_continuation_tick.py:157-158 | a plan is driven exactly when it is active and fewer active plans than the bound are listed before it; a negative bound counts from the end |
| GoalTurn.PlanAdvancesInSameTick | packages/forgekit-runtime/src/forgekit_runtime/runtime/goal_continuation_tick.py:156-172 | within the bound, the first step of a plan that is neither over nor a leaf finishing in this tick is active after the tick, if it was a draft |
| GoalTurn.PlanClosesInSameTick | packages/forgekit-runtime/src/forgekit_runtime/runtime/goal_continuation_tick.py:156-185 | within the bound, a plan whose resolvable steps are all over or leaves finishing in this tick is done after the tick, with one more verification entry |
| GoalTurn.IdleGoalIsLeft | packages/forgekit-runtime/src/forgekit_runtime/runtime/goal_continuation_tick.py:106-185 | a goal that is blocked, awaits approval or is over is the same after the tick |
| GoalTurn.OtherGoalsChangeOnly | packages/forgekit-runtime/src/forgekit_runtime/runtime/goal_continuation_tick.py:156-185 | a goal that is no active leaf changes only as a draft its plan has reached, which is activated, or as a plan within the bound whose steps are over, which is closed |
| GoalTurn.UnlinkAllIsExcept | packages/forgekit-runtime/src/forgekit_runtime/runtime/goal_continuation_tick.py:139-142 | unlinking the packets of a retry leaves the others in their order |
| GoalTick.AtMostOneInFlight | packages/forgekit-goal/src/forgekit_goal/planning.py:306-356 | in a sound store at most one step of a plan is active, blocked or awaiting approval |
| GoalTick.AdvanceTargets | packages/forgekit-goal/src/forgekit_goal/planning.py:332-352 | an advance targets the first draft, with every earlier step over |
| GoalTick.ActivatingUsesDraft | packages/forgekit-runtime/src/forgekit_runtime/runtime/goal_continuation_tick.py:163-172 | activating a draft is always legal and uses up exactly that draft |
| GoalTick.ClosingIsLegal | packages/forgekit-runtime/src/forgekit_runtime/runtime/goal_continuation_tick.py:173-185 | closing an active parent is never refused and records a verification |
| GoalTick.CompleteMeansOver | packages/forgekit-goal/src/forgekit_goal/planning.py:332-356 | a plan is completed only when some step of it resolves and each that does is done or abandoned |
| GoalTick.TickKeepsSound | packages/forgekit-runtime/src/forgekit_runtime/runtime/goal_continuation_tick.py:87-189 | a tick keeps every plan in order, for any store and bounds, and makes no new draft |
| GoalTick.TickClosesOnlyFinished | packages/forgekit-runtime/src/forgekit_runtime/runtime/goal_continuation_tick.py:106-185 | what a tick marks done is a complete leaf, or a plan with resolvable steps that are all over |
| GoalTick.ClosedPlanCompleteIff | packages/forgekit-runtime/src/forgekit_runtime/runtime/goal_continuation_tick.py:34-38 | where the promise that only complete goals are closed holds for a plan: exactly when it has proposed packets and all of them ran |
| GoalTick.UnfinishedPlanIsClosed | packages/forgekit-runtime/src/forgekit_runtime/runtime/goal_continuation_tick.py:173-185 | a plan whose one step was abandoned is closed with a packet of its own still pending |
| GoalTick.DecomposeKeepsSound | packages/forgekit-goal/src/forgekit_goal/planning.py:83-128 | adding the drafts of a decomposition keeps every plan in order |
| GoalTick.RunKeepsPlansInOrder | packages/forgekit-runtime/src/forgekit_runtime/runtime/goal_continuation_tick.py:87-189 | over every mix of ticks, goal operations, decompositions, new goals and deletions at most one step of each plan is in flight, with only finished steps before it |
| GoalTick.ActivatingKeepsOrderIff | packages/forgekit-goal/src/forgekit_goal/transitions.py:27-34 | activating a draft or reopening a finished step by hand keeps the plans in order exactly when earlier steps are over and no later one is in flight |
| GoalRest.TickUsesUpWork | packages/forgekit-runtime/src/forgekit_runtime/runtime/goal_continuation_tick.py:43-45 | a tick that changes the store at all decreases the work left, status moves and retries, in whatever order it lists the goals |
| GoalRest.ChangesAreBounded | packages/forgekit-runtime/src/forgekit_runtime/runtime/goal_continuation_tick.py:43-45 | over any sequence of ticks, each with its own listing, those that change the store are at most as many as there is work |
| GoalRest.TicksComeToRest | packages/forgekit-runtime/src/forgekit_runtime/runtime/goal_continuation_tick.py:43-45 | among more successive ticks than there is work, each with its own listing, one finds a store that it leaves as it is |
| GoalRest.AtRestIff | packages/forgekit-runtime/src/forgekit_runtime/runtime/goal_continuation_tick.py:106-185 | a store is at rest exactly when no active leaf is finished or stuck and every plan within the bound waits for a step or the operator, or has no step that resolves |
| GoalRest.CrowdStarves | packages/forgekit-runtime/src/forgekit_runtime/runtime/goal_continuation_tick.py:157-161 | for any bound, a store at rest in which a plan behind waiting ones could advance |
| GoalRest.NoneStarvesIff | packages/forgekit-runtime/src/forgekit_runtime/runtime/goal_continuation_tick.py:157-161 | at rest all of up to `n` active plans wait, in every store, exactly when the bound is at least `n` |
| MemoryModel.ComplementLess | packages/agent-memory/src/yule_agent_memory/long_term_memory.py:239-242 | complementing reverses the order, except between a string and its prefix |
| MemoryModel.InvertReversesIff | packages/agent-memory/src/yule_agent_memory/long_term_memory.py:229-242 | inverting reverses the order of two non-empty strings exactly when neither is a proper prefix of the other |
| MemoryModel.PrefixKeepsItsPlace | packages/agent-memory/src/yule_agent_memory/long_term_memory.py:229-242 | a timestamp and a longer one that starts with it keep their order when inverted |
| MemoryModel.EmptyInvertsFirstIff | packages/agent-memory/src/yule_agent_memory/long_term_memory.py:237-242 | an empty timestamp sorts after another one exactly when that starts with a code point above U+100000, and before it otherwise, unless it is U+100000 alone |
| MemoryModel.InvertReversesSameLength | packages/agent-memory/src/yule_agent_memory/long_term_memory.py:229-242 | of two timestamps of one length the later gets the smaller key |
| Relevance.ComputeScore | packages/agent-memory/src/yule_agent_memory/relevance_selector.py:86-115 | the loop gives 1 for a block and otherwise the clamped weighted sum |
| Relevance.ComponentsInUnit | packages/agent-memory/src/yule_agent_memory/relevance_selector.py:121-178 | each component score lies between 0 and 1, trust between 0.5 and 0.9 |
| Relevance.DefaultScoreBound | packages/agent-memory/src/yule_agent_memory/relevance_selector.py:51-115 | with the default weights exactly the blocks score 1 and every other shard at most 0.975, reached exactly by a fresh decision of the role and topics asked for |
| MemoryLaws.RecencyIs | packages/agent-memory/src/yule_agent_memory/relevance_selector.py:121-138 | 1 for a shard no older than now, 0 from the horizon on, and linear in its age in seconds in between; 0 without a readable time |
| MemoryLaws.OverlapIs | packages/agent-memory/src/yule_agent_memory/relevance_selector.py:140-155 | the number of tags in common divided by the number of all tags of both, 0 when either has none |
| MemoryLaws.TagsAre | packages/agent-memory/src/yule_agent_memory/relevance_selector.py:149 | tags count stripped and in lower case, without empty ones |
| MemoryLaws.RoleMatchIff | packages/agent-memory/src/yule_agent_memory/relevance_selector.py:157-175 | 1 exactly when the source holds the role or what follows its last slash |
| MemoryLaws.LastSegmentIs | packages/agent-memory/src/yule_agent_memory/relevance_selector.py:172 | what follows the last slash of a role |
| MemoryLaws.DefaultScoreIs | packages/agent-memory/src/yule_agent_memory/relevance_selector.py:51-115 | the default score is 0.25 recency, 0.35 overlap, 0.15 role and 0.25 trust, or 1 for a block |
| MemoryPack.BuildMemoryPack | packages/agent-memory/src/yule_agent_memory/long_term_memory.py:140-214 | the loops and the sort give the pack whose members, order and size `MemoryLaws` fixes, empty when no memory is wired or it is off |
| MemoryPack.Collect | packages/agent-memory/src/yule_agent_memory/long_term_memory.py:183-191 | the nested loops deduplicate what all sources return, in order of arrival |
| MemoryPack.DedupeKeepsFirstBest | packages/agent-memory/src/yule_agent_memory/long_term_memory.py:183-191 | one shard survives per hash that arrived: the first arrival among those with its best score |
| MemoryPack.PackIsExactTop | packages/agent-memory/src/yule_agent_memory/long_term_memory.py:183-208 | the memory pack is the exact top of the survivors: as many as the limit allows, no hash twice, in strict key order, none left out sorts before one taken |
| MemoryPack.BlocksComeFirst | packages/agent-memory/src/yule_agent_memory/long_term_memory.py:195-208 | blocks precede all other shards and are dropped only when blocks alone fill the memory pack |
| MemoryPack.NewerComesFirst | packages/agent-memory/src/yule_agent_memory/long_term_memory.py:193-205 | of equally ranked shards with timestamps of one length the newer comes first |
| MemoryPack.BlockSurvives | packages/agent-memory/src/yule_agent_memory/long_term_memory.py:183-191 | if only blocks reach the maximal score, a hash for which a block arrived survives as a block, in any order of arrival |
| MemoryPack.BlockSurvivesByDefault | packages/agent-memory/src/yule_agent_memory/relevance_selector.py:94-104 | with the default weights a block always survives |
| MemoryPack.BlockSurvivesIff | packages/agent-memory/src/yule_agent_memory/long_term_memory.py:188-191 | with other weights a block survives exactly when no shard of its hash with the maximal score arrives before it |
| MemoryPack.RaisingIsAbsent | packages/agent-memory/src/yule_agent_memory/long_term_memory.py:222-226 | a source that raises leaves the memory pack as if it were absent |
| MemoryLaws.PackHasOnePerHash | packages/agent-memory/src/yule_agent_memory/long_term_memory.py:183-208 | as many shards as the limit and the distinct hashes allow, each the first best of its hash, no hash twice |
| MemoryLaws.BlocksLead | packages/agent-memory/src/yule_agent_memory/long_term_memory.py:195-204 | a block is preceded by blocks only |
| MemoryLaws.HigherScoreComesFirst | packages/agent-memory/src/yule_agent_memory/long_term_memory.py:193-206 | of two shards of the pack, both blocks or neither, the first has no lower score; of equal scores its timestamp is no older, or starts the other one; of equal scores and timestamps it has no greater hash |
| MemoryLaws.NothingBetterIsLeftOut | packages/agent-memory/src/yule_agent_memory/long_term_memory.py:206-208 | a survivor left out is no block unless each shard taken is one, scores no higher than one taken of its kind, and of equal score and time has no smaller hash |
| MemoryLaws.AnswersInOrder | packages/agent-memory/src/yule_agent_memory/long_term_memory.py:184-191 | the answers are taken one source after the other |
| MemoryLaws.BlocksIff | packages/agent-memory/src/yule_agent_memory/long_term_memory.py:198-202 | a block is a mistake whose blocker says "block" in whatever case |
| TopicIndex.TopicIndex.constructor | packages/agent-memory/src/yule_agent_memory/topic_index.py:41-44 | an empty index with a budget that is never negative |
| TopicIndex.TopicIndex.Add | packages/agent-memory/src/yule_agent_memory/topic_index.py:62-72 | the index stays exact for the first shard of each hash; adding a known hash changes nothing |
| TopicIndex.TopicIndex.Candidates | packages/agent-memory/src/yule_agent_memory/topic_index.py:98-100 | the hashes found are exactly those of shards sharing a word with the query |
| TopicIndex.TopicIndex.ShardsOf | packages/agent-memory/src/yule_agent_memory/topic_index.py:103 | lists exactly the shards of the hashes, each once, in whatever order |
| TopicIndex.TopicIndex.Lookup | packages/agent-memory/src/yule_agent_memory/topic_index.py:78-106 | after any additions a lookup equals a linear scan of the first shard per hash, newest first, then by hash |
| TopicIndex.TwoSortsAreNewestFirst | packages/agent-memory/src/yule_agent_memory/topic_index.py:104-105 | the two successive stable sorts order by creation time descending, then hash ascending |
| TopicIndex.TwoSortsScan | packages/agent-memory/src/yule_agent_memory/topic_index.py:103-106 | any listing of the matching shards, sorted twice, is the scan |
| MemoryLaws.LookupFinds | packages/agent-memory/src/yule_agent_memory/topic_index.py:78-106 | a lookup finds exactly the shards added first for their hash that share a word of a tag or a leading word of the content with the query |
| MemoryLaws.LookupOrder | packages/agent-memory/src/yule_agent_memory/topic_index.py:103-106 | it lists later creation times first, equal ones by hash, and no hash twice |
| MemoryLaws.FoundBy | packages/agent-memory/src/yule_agent_memory/topic_index.py:131-140 | a word finds a shard exactly when some tag holds it or it is among the first words of the content that the budget allows |
| MemoryLaws.RunIsOneWord | packages/agent-memory/src/yule_agent_memory/__init__.py:294-308 | a run of letters and digits is one word |
| MemoryLaws.SeparatorSplitsWords | packages/agent-memory/src/yule_agent_memory/__init__.py:294-308 | any other character separates words |
| Recall.ScoreSession | packages/agent-runtime/src/yule_agent_runtime/recall.py:595-639 | the field loop computes the score of the best field |
| Recall.BestFieldIsMaximal | packages/agent-runtime/src/yule_agent_runtime/recall.py:617-628 | the best field is the first one with the largest overlap |
| Recall.ScoreInUnit | packages/agent-runtime/src/yule_agent_runtime/recall.py:630-636 | a score lies between 0 and 1 and is positive exactly when some field shares a word with the message |
| RecallLaws.ScoreIs | packages/agent-runtime/src/yule_agent_runtime/recall.py:617-636 | the score is the share of the message's words that the first best field holds, plus 0.1 up to 1 when that is the prompt and holds two or more |
| Recall.ComputeSessionRecall | packages/agent-runtime/src/yule_agent_runtime/recall.py:359-493 | new work, anchors, scoring and recency cue compute the outcome that the lemmas below and those of `RecallLaws` are about |
| Recall.MatchIsClearWinner | packages/agent-runtime/src/yule_agent_runtime/recall.py:458-493 | a match scores at least 0.20 and at least 0.10 above every other open session |
| Recall.ClearWinnerIsMatched | packages/agent-runtime/src/yule_agent_runtime/recall.py:467-484 | a session that does is matched, with high confidence exactly from 0.45 on |
| Recall.ScoringAttachesIff | packages/agent-runtime/src/yule_agent_runtime/recall.py:422-493 | scoring attaches a session exactly when it is a clear winner; with no shared word only a recency cue attaches one |
| Recall.RecallAttachesIff | packages/agent-runtime/src/yule_agent_runtime/recall.py:359-493 | a session is attached exactly when the message is no new work, some session is open, and one is in its thread, or is a clear winner, or no word is shared and the message has a recency cue |
| Recall.AttachesOnlyOpen | packages/agent-runtime/src/yule_agent_runtime/recall.py:371-399 | only an open, listed session is ever attached, and none for new work |
| RecallLaws.ThreadDecides | packages/agent-runtime/src/yule_agent_runtime/recall.py:402-420 | the first open session in the message's thread is attached with high confidence, and the first five open sessions are offered |
| RecallLaws.WinnerDecides | packages/agent-runtime/src/yule_agent_runtime/recall.py:458-484 | otherwise a clear winner is attached, with high confidence from 0.45 on and medium below |
| RecallLaws.ClearWinnerMeans | packages/agent-runtime/src/yule_agent_runtime/recall.py:467-484 | a clear winner scores at least 0.20 and at least 0.10 more than each other open session |
| RecallLaws.RecencyDecides | packages/agent-runtime/src/yule_agent_runtime/recall.py:431-450 | otherwise, with no shared word and a recency cue, the first of the open sessions updated last is attached with medium confidence and offered alone |
| RecallLaws.NothingShared | packages/agent-runtime/src/yule_agent_runtime/recall.py:452-456 | with no shared word and no such cue nothing is attached or offered |
| RecallLaws.NoWinnerDecides | packages/agent-runtime/src/yule_agent_runtime/recall.py:485-493 | with shared words but no clear winner none is attached |
| RecallLaws.FiveBestAreOffered | packages/agent-runtime/src/yule_agent_runtime/recall.py:422-465 | when the sessions are scored the five best are offered, by score and then in the order listed, and all when there are fewer |
| RecallLaws.NewWorkIsOffered | packages/agent-runtime/src/yule_agent_runtime/recall.py:371-394 | new work is attached to nothing; the first open session in its thread is offered, or else the first in its channel, or none |
| Toolchain.DetectRequirements | packages/forgekit-toolchain/src/forgekit_toolchain/detect.py:142-171 | the scan loops collect all declarations and keep the first per tool |
| Toolchain.ProfileForLoadout | packages/forgekit-toolchain/src/forgekit_toolchain/profile.py:57-79 | a loadout's weapons that are runtimes, first per tool |
| Toolchain.FirstDeclarationWins | packages/forgekit-toolchain/src/forgekit_toolchain/detect.py:165-171 | what is listed for a tool is exactly its first declaration in scan order |
| Toolchain.FirstPerToolUnique | packages/forgekit-toolchain/src/forgekit_toolchain/detect.py:165-171 | no tool is listed twice |
| Toolchain.ProfileListsToolsOnce | packages/forgekit-toolchain/src/forgekit_toolchain/profile.py:89-101 | the merged profile lists each tool once, whatever the manifests and the loadout say |
| Toolchain.RepositoryWins | packages/forgekit-toolchain/src/forgekit_toolchain/profile.py:89-101 | a tool is listed as the manifests first declare it, and as the loadout first declares it exactly when no manifest declares it |
| Toolchain.ProfileIsFirstPerTool | packages/forgekit-toolchain/src/forgekit_toolchain/profile.py:89-101 | the profile is the first declaration of each tool in the manifests followed by the loadout |
| Toolchain.ProfileInOrder | packages/forgekit-toolchain/src/forgekit_toolchain/profile.py:95-100 | tools are listed in the order of their first declarations, those of the manifests first |
| Toolchain.ManifestsInOrder | packages/forgekit-toolchain/src/forgekit_toolchain/detect.py:150-171 | manifests are read one after the other |
| Toolchain.WeaponsInOrder | packages/forgekit-toolchain/src/forgekit_toolchain/profile.py:68-76 | so are the weapons of a loadout |
| Toolchain.SatisfiesDottedIff | packages/forgekit-toolchain/src/forgekit_toolchain/plan.py:21-36 | the match is on whole dotted parts exactly when the active version does not run on past the pin with anything but a dot |
| Toolchain.TwoHundredSatisfiesTwenty | packages/forgekit-toolchain/src/forgekit_toolchain/plan.py:35-36 | "200" satisfies the pin "20" |
| Toolchain.SatisfiesOtherwise | packages/forgekit-toolchain/src/forgekit_toolchain/plan.py:28-34 | an empty pin asks for nothing, nothing active meets no other pin, and an alias is met by whatever is active |
| Toolchain.OperatorsDropped | packages/forgekit-toolchain/src/forgekit_toolchain/plan.py:35 | exactly the leading operators and spaces of a pin are dropped |
| Toolchain.StatesMean | packages/forgekit-toolchain/src/forgekit_toolchain/plan.py:39-65 | when a tool is manager missing, absent, unpinned, matched or mismatched |
| Toolchain.Verify | packages/forgekit-toolchain/src/forgekit_toolchain/plan.py:39-65 | one state per tool: manager missing, absent, unpinned, match or mismatch |
| Toolchain.PlanSwitch | packages/forgekit-toolchain/src/forgekit_toolchain/plan.py:75-111 | the loop computes the plan that the lemmas below are about |
| Toolchain.PlanForOne | packages/forgekit-toolchain/src/forgekit_toolchain/plan.py:89-108 | the actions for one tool: none without a pin or when it is met, otherwise the use of the pinned version, after its installation when none is active |
| Toolchain.PlanInOrder | packages/forgekit-toolchain/src/forgekit_toolchain/plan.py:86-111 | the plan goes through the tools in order |
| Toolchain.PlanCovers | packages/forgekit-toolchain/src/forgekit_toolchain/plan.py:89-108 | every pinned tool is satisfied or has its pin in the plan, the plan uses versions only as pinned and uses every tool it installs |
| Toolchain.EmptyPlanIff | packages/forgekit-toolchain/src/forgekit_toolchain/plan.py:89-108 | the plan is empty exactly when every pinned tool verifies as a match |
| Toolchain.SatisfiedNeedsNoPlan | packages/forgekit-toolchain/src/forgekit_toolchain/plan.py:90-94 | satisfied tools need no action |
| Toolchain.NeedsApprovalIff | packages/forgekit-toolchain/src/forgekit_toolchain/models.py:112-141 | a plan needs approval exactly when some pinned, unsatisfied tool is absent or is to be pinned globally |
| Toolchain.Manager.Run | packages/forgekit-toolchain/src/forgekit_toolchain/manager.py:20-25 | any manager: one log entry and exit code per command; a successful command of a faithful one touches no other tool, and a successful use satisfies its version |
| Toolchain.HonouredKeepsCovered | packages/forgekit-toolchain/src/forgekit_toolchain/surface.py:140-146 | an honoured command leaves every pinned tool satisfied or still ahead in the plan |
| Toolchain.RunPlan | packages/forgekit-toolchain/src/forgekit_toolchain/surface.py:138-147 | runs exactly the plan's commands in order, succeeds exactly when all exit with 0, and then covers every pinned tool |
| Toolchain.SwitchTools | packages/forgekit-toolchain/src/forgekit_toolchain/surface.py:126-152 | without approval a gated plan issues no command; a successful switch of a faithful manager leaves every pinned tool matched and a second plan empty |
| Toolchain.ApplySwitch | packages/forgekit-toolchain/src/forgekit_toolchain/surface.py:114-152 | the same from the manifests and the loadout on; after a successful switch of a faithful manager each tool whose first declaration in a manifest is a pin satisfies it, and without approval nothing runs when some pinned tool that is not met is absent or to be pinned globally |
| Catalog.Catalog.constructor | packages/armory/src/armory/catalog.py:482-493 | a catalog starts with its seed and an empty overlay |
| Catalog.Catalog.RegisterPromoted | packages/armory/src/armory/catalog.py:495-499 | replaces the overlay entry of the id, keeps overlay ids unique |
| Catalog.Catalog.ClearOverlay | packages/armory/src/armory/catalog.py:502-505 | empties the overlay |
| Catalog.ChangedUnique | packages/armory/src/armory/catalog.py:495-505 | overlay ids stay unique over any sequence of registrations and clears |
| Catalog.AllSkillsUnique | packages/armory/src/armory/catalog.py:512-517 | the catalog lists each id once |
| Catalog.LookupAgreesWithListing | packages/armory/src/armory/catalog.py:512-532 | after any sequence of changes looking an id up gives exactly the skill listed under it |
| Catalog.RegisteringReplaces | packages/armory/src/armory/catalog.py:495-532 | a registered skill is the one found under its id, and no other id changes |
| Resolver.CandidatesEarnTheirPlace | packages/hephaistos/src/hephaistos/resolver.py:170-191 | a candidate never speaks only other languages, and one of another domain matched on more than the language |
| Resolver.ApplyProjectFacts | packages/hephaistos/src/hephaistos/resolver.py:115-151 | keeps the selected ids in order without the excluded ones, which are exactly those some exclusion fact refers to |
| Resolver.JudgeAll | packages/hephaistos/src/hephaistos/resolver.py:170-191 | the loop collects the candidates and the gate rejections |
| Resolver.KeptInScoreOrder | packages/hephaistos/src/hephaistos/resolver.py:192-198 | what is kept stays ordered by score, then id |
| Resolver.GateRejectedIsNoCandidate | packages/hephaistos/src/hephaistos/resolver.py:170-191 | no id is both a candidate and rejected by a gate |
| Resolver.ScopeOut | packages/hephaistos/src/hephaistos/resolver.py:228-237 | rejects exactly the blocked, unselected skills that share a domain with a selected one |
| Resolver.ScopedOutIff | packages/hephaistos/src/hephaistos/resolver.py:228-237 | the lookup of a blocked id and the catalog listing give the same verdict |
| Resolver.PlanIsResolved | packages/hephaistos/src/hephaistos/resolver.py:165-238 | selected and excluded ids cover the candidates, nothing selected is excluded or rejected, and the rejections are exactly those with a cause |
| Resolver.Resolve | packages/hephaistos/src/hephaistos/resolver.py:165-238 | over any catalog with a unique seed the plan is resolved in that sense |
| ResolverLaws.CandidateIff | packages/hephaistos/src/hephaistos/resolver.py:170-191 | a skill is a candidate exactly when it has points, is not for other languages only and is not of another domain with only the language to speak for it; its score is its points |
| ResolverLaws.ScoreIsPoints | packages/armory/src/armory/models.py:141-156 | 2 points for the domain, 2 for the language, 3 for the framework, 4 for the topic, and one for each position of a signal or topic that the text holds |
| ResolverLaws.GatesMean | packages/hephaistos/src/hephaistos/resolver.py:172-189 | when a skill is rejected at the language gate and when at the domain gate |
| ResolverLaws.MorePointsComeFirst | packages/hephaistos/src/hephaistos/resolver.py:192 | of two selected skills the first has more points, or as many and the lesser id |
| ResolverLaws.SelectedIff | packages/hephaistos/src/hephaistos/resolver.py:165-198 | a skill of the catalog is selected exactly when it is a candidate that no fact excludes |
| ResolverLaws.RejectionsMean | packages/hephaistos/src/hephaistos/resolver.py:172-237 | when a rejection at the language gate, at the domain gate or by the loadout's scope is recorded, said of the catalog and the request |
| ResolverLaws.FactRejectionsMean | packages/hephaistos/src/hephaistos/resolver.py:225-229 | a rejection by a fact is recorded exactly for the skills some fact excludes |
| ResolverLaws.ExcludedIff | packages/hephaistos/src/hephaistos/resolver.py:104-148 | a fact excludes a skill exactly when it holds one of the nine words for leaving out and the id, a signal or a topic of the skill |

## Left out

- ISO parsing and formatting, time zones, daylight saving and sub-second times: times are integer seconds, and schedule entries that do not parse are not in the list.
- Regular expressions for description lines and time tokens: a line comes with its tokens; the tests on titles and categories are boolean fields.
- Words for recall, stop words and the recency and new-work cues: given as sets and flags. Session ids are taken to be unique.
- Case conversion beyond ASCII letters.
- Rounding: weights, ratios, scores and thresholds are reals.
- Identifiers, block and checkpoint ids, hashes and prompts: parameters or omitted.
- Time stamps of goals and the wording of evidence summaries and reasons: a retry records the reason itself, without its counter.
- `GoalStore` files and the order in which they are listed (it may differ from tick to tick), failures of loading, and the counters and summary line of a tick.
- RunKeepsPlansInOrder: covers runs in which steps of a plan are activated by ticks and not by hand, and children come from decompositions with new ids; `ActivatingKeepsOrderIff` says exactly when activating by hand does no harm.
- `derive_plan_steps`, `is_big_goal`, `approval_disposition`: settled by reading one branch.
- Queries of memory sources, filters and caps: a source is the list it returns, or a failure.
- Memory hits and coverage of a recall result, and its wording.
- Parsing of manifests: a manifest is the list of requirements it declares, in order.
- Manager commands are a datatype, not an argument vector.
- Request inference, agent, loadout and weapon selection, evidence rows, constraints and the packet of the forge resolver; the loadout's blocked list is a parameter.
- Reminders for missing plans and for rebriefing: easy variants of the reminders modelled.
