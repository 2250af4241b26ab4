/** What one tick does to one goal
    (packages/forgekit-runtime/src/forgekit_runtime/runtime/goal_continuation_tick.py, lines 106-185), said
    of the store after the tick. */
module GoalTurn {
  import opened GoalModel
  import opened GoalPlanning
  import opened GoalRest
  import opened GoalTick
  import opened Sequences
  import opened Wrappers

  // ---------------------------------------------------------------------------------------------
  // Leaves
  // ---------------------------------------------------------------------------------------------

  /** The list without the members of a set, in order. */
  function Except(s: seq<string>, gone: set<string>): (r: seq<string>)
    ensures forall x :: x in r <==> x in s && x !in gone
  {
    if s == [] then []
    else
      assert s == [s[0]] + s[1..];
      (if s[0] in gone then [] else [s[0]]) + Except(s[1..], gone)
  }

  lemma {:induction false} WithoutIsExcept(s: seq<string>, x: string, gone: set<string>)
    ensures Except(Without(s, x), gone) == Except(s, gone + {x})
  {
    if s != [] {
      WithoutIsExcept(s[1..], x, gone);
      var r := Without(s[1..], x);
      if s[0] != x { assert ([s[0]] + r)[1..] == r; }
    }
  }

  lemma {:induction false} ExceptNone(s: seq<string>)
    ensures Except(s, {}) == s
  {
    if s != [] {
      ExceptNone(s[1..]);
      assert s == [s[0]] + s[1..];
    }
  }

  lemma {:induction false} UnlinkAllIsExcept(g: Goal, pids: seq<string>)
    ensures UnlinkAll(g, pids).packets == Except(g.packets, Elements(pids))
    decreases pids
  {
    if pids == [] {
      ExceptNone(g.packets);
      assert Elements(pids) == {};
    } else {
      UnlinkAllIsExcept(g.UnlinkPacket(pids[0]), pids[1..]);
      WithoutIsExcept(g.packets, pids[0], Elements(pids[1..]));
      assert pids == [pids[0]] + pids[1..];
      assert Elements(pids) == Elements(pids[1..]) + {pids[0]};
    }
  }

  lemma {:induction false} DrivesLeave(store: Store, pids: seq<string>, k: string)
    requires k in store && store[k].status != Draft && k !in pids && forall p :: p in pids ==> p in store
    ensures DriveAll(store, pids)[k] == store[k]
    decreases pids
  {
    if pids != [] { DrivesLeave(Drive(store, pids[0]), pids[1..], k); }
  }

  /** A leaf that is active is changed by its own turn only. */
  lemma LeafTurnIsSettle(store: Store, order: seq<string>, maxGoals: int, maxAttempts: int, k: string)
    requires (forall p :: p in order ==> p in store) && k in store && IsActiveLeaf(store[k])
    ensures Ticked(store, order, maxGoals, maxAttempts)[k] == Settle(RollUp(store[k]), maxAttempts)
  {
    var settled := SettleAll(store, maxAttempts);
    var pids := Upto(ActiveParents(order, store), maxGoals);
    LeafStaysUnderWay(store[k], maxAttempts);
    assert settled[k] == Settle(RollUp(store[k]), maxAttempts);
    assert k !in ActiveParents(order, store);
    DrivesLeave(settled, pids, k);
  }

  lemma LeafStaysUnderWay(g: Goal, maxAttempts: int)
    requires IsActiveLeaf(g)
    ensures Settle(RollUp(g), maxAttempts).status in {Active, AwaitingApproval, Done}
  {
    RollUpMoves(g);
    var d := ReplanOf(g, maxAttempts);
    if d.Escalate? { EscalationMoves(g, d); }
    if d.Retry? { UnlinkAllDrops(g, d.unlink); }
  }

  lemma StuckIsNotRolledUp(g: Goal)
    requires IsActiveLeaf(g) && Refused(g) != {} && Pending(g) == {}
    ensures RollUp(g) == g && IsStuck(g)
  {
    CompleteIff(g);
  }

  ghost predicate IsRetried(g: Goal, r: Goal) {
    && r.status == Active
    && r.packets == Except(g.packets, Refused(g))
    && r.evidence == g.evidence + [Evidence("replan", Reason(g.evidence), None)]
    && r == g.(packets := r.packets, evidence := r.evidence)
  }

  lemma StuckIsDecided(g: Goal, maxAttempts: int)
    requires IsStuck(g)
    ensures ReplanOf(g, maxAttempts)
      == Decision(BlockedPacketIds(g), Attempts(g.evidence), maxAttempts, Reason(g.evidence))
  {}

  lemma RetryTakesOut(g: Goal, attempt: nat)
    requires g.status == Active
    ensures IsRetried(g, Decided(g, Retry(BlockedPacketIds(g), attempt, Reason(g.evidence))))
  {
    var gone := BlockedPacketIds(g);
    UnlinkAllDrops(g, gone);
    UnlinkAllIsExcept(g, gone);
    forall p ensures p in gone <==> p in Refused(g) { BlockedIdsAreRefused(g, p); }
    assert Elements(gone) == Refused(g);
  }

  lemma StuckIsRetried(g: Goal, maxAttempts: int)
    requires IsActiveLeaf(g) && IsStuck(g) && Attempts(g.evidence) < maxAttempts
    ensures IsRetried(g, Settle(g, maxAttempts))
  {
    StuckIsDecided(g, maxAttempts);
    RetryTakesOut(g, Attempts(g.evidence) + 1);
  }

  /** A stuck active leaf with attempts left stays active, loses exactly its refused packets, and gets one
      replan entry. */
  lemma StuckLeafRetries(store: Store, order: seq<string>, maxGoals: int, maxAttempts: int, k: string)
    requires (forall p :: p in order ==> p in store) && k in store
    requires store[k].status == Active && store[k].children == [] && Refused(store[k]) != {} && Pending(store[k]) == {}
    requires Replans(store[k].evidence) < maxAttempts
    ensures var g, r := store[k], Ticked(store, order, maxGoals, maxAttempts)[k];
      && r.status == Active
      && r.packets == Except(g.packets, Refused(g))
      && r.evidence == g.evidence + [Evidence("replan", Reason(g.evidence), None)]
      && r == g.(packets := r.packets, evidence := r.evidence)
  {
    var g := store[k];
    StuckIsNotRolledUp(g);
    AttemptsAreReplans(g.evidence);
    LeafTurnIsSettle(store, order, maxGoals, maxAttempts, k);
    StuckIsRetried(g, maxAttempts);
    assert IsRetried(g, Ticked(store, order, maxGoals, maxAttempts)[k]);
  }

  /** A stuck active leaf with no attempts left keeps its packets, awaits approval, and gets one blocked
      entry. */
  lemma StuckLeafEscalates(store: Store, order: seq<string>, maxGoals: int, maxAttempts: int, k: string)
    requires (forall p :: p in order ==> p in store) && k in store
    requires store[k].status == Active && store[k].children == [] && Refused(store[k]) != {} && Pending(store[k]) == {}
    requires Replans(store[k].evidence) >= maxAttempts
    ensures var g, r := store[k], Ticked(store, order, maxGoals, maxAttempts)[k];
      r == g.(status := AwaitingApproval, evidence := g.evidence + [Evidence("blocked", Reason(g.evidence), None)])
  {
    var g := store[k];
    StuckIsNotRolledUp(g);
    AttemptsAreReplans(g.evidence);
    ExhaustedStuckEscalates(g, maxAttempts);
    LeafTurnIsSettle(store, order, maxGoals, maxAttempts, k);
    EscalationMoves(g, ReplanOf(g, maxAttempts));
  }

  /** Each counted packet has run, and something was verified. */
  ghost predicate Finished(g: Goal) {
    && Proposed(g) != {} && Proposed(g) <= Refs(g, "execution")
    && exists e :: e in g.evidence && e.kind == "verification"
  }

  /** A finished active leaf is done after the tick, with one more verification entry. */
  lemma FinishedLeafCloses(store: Store, order: seq<string>, maxGoals: int, maxAttempts: int, k: string)
    requires (forall p :: p in order ==> p in store) && k in store
    requires store[k].status == Active && store[k].children == [] && Finished(store[k])
    ensures var g, r := store[k], Ticked(store, order, maxGoals, maxAttempts)[k];
      r == g.(status := Done, evidence := g.evidence + [Evidence("verification", "", None)])
  {
    var g := store[k];
    CompleteIff(g);
    RollUpMoves(g);
    LeafTurnIsSettle(store, order, maxGoals, maxAttempts, k);
  }

  /** Any other active leaf is left as it is. */
  lemma OtherLeafWaits(store: Store, order: seq<string>, maxGoals: int, maxAttempts: int, k: string)
    requires (forall p :: p in order ==> p in store) && k in store
    requires store[k].status == Active && store[k].children == [] && !Finished(store[k])
    requires Refused(store[k]) == {} || Pending(store[k]) != {}
    ensures Ticked(store, order, maxGoals, maxAttempts)[k] == store[k]
  {
    var g := store[k];
    CompleteIff(g);
    RollUpMoves(g);
    ExhaustedStuckEscalates(g, maxAttempts);
    LeafTurnIsSettle(store, order, maxGoals, maxAttempts, k);
  }

  /** A goal that is blocked, awaits approval or is over, and leads no plan the tick drives, is left as it
      is. */
  lemma IdleGoalIsLeft(store: Store, order: seq<string>, maxGoals: int, maxAttempts: int, k: string)
    requires (forall p :: p in order ==> p in store) && k in store
    requires store[k].status in {Blocked, AwaitingApproval, Done, Abandoned}
    ensures Ticked(store, order, maxGoals, maxAttempts)[k] == store[k]
  {
    var settled := SettleAll(store, maxAttempts);
    assert settled[k] == store[k];
    assert k !in ActiveParents(order, store);
    DrivesLeave(settled, Upto(ActiveParents(order, store), maxGoals), k);
  }

  // ---------------------------------------------------------------------------------------------
  // Plans
  // ---------------------------------------------------------------------------------------------

  predicate IsActivePlan(g: Goal) { g.status == Active && g.children != [] }

  /** How many active plans are listed before position `i`. */
  ghost function PlansBefore(store: Store, order: seq<string>, i: nat): nat
    requires i <= |order| && Stored(order, store)
  {
    |set j | 0 <= j < i && IsActivePlan(store[order[j]])|
  }

  /** How many plans one tick drives at most: a negative bound counts back from the end of the list, as a
      slice does. */
  ghost function Quota(store: Store, order: seq<string>, maxGoals: int): int
    requires Stored(order, store)
  {
    if maxGoals >= 0 then maxGoals else PlansBefore(store, order, |order|) + maxGoals
  }

  lemma OneMoreBefore(store: Store, order: seq<string>, n: nat)
    requires Stored(order, store) && n < |order|
    ensures PlansBefore(store, order, n + 1)
      == PlansBefore(store, order, n) + if IsActivePlan(store[order[n]]) then 1 else 0
  {
    var all := set j | 0 <= j < n + 1 && IsActivePlan(store[order[j]]);
    var some := set j | 0 <= j < n && IsActivePlan(store[order[j]]);
    assert all == some + if IsActivePlan(store[order[n]]) then {n} else {};
  }

  lemma OneParentListed(store: Store, p: string)
    requires p in store
    ensures ActiveParents([p], store) == if IsActivePlan(store[p]) then [p] else []
  {
    assert ActiveParents([p][1..], store) == [];
  }

  lemma OneMoreListed(store: Store, order: seq<string>, n: nat)
    requires Stored(order, store) && n < |order|
    ensures Stored(order[..n], store) && Stored(order[..n + 1], store)
    ensures ActiveParents(order[..n + 1], store)
      == ActiveParents(order[..n], store) + if IsActivePlan(store[order[n]]) then [order[n]] else []
  {
    assert order[..n + 1] == order[..n] + [order[n]];
    ParentsAppend(order[..n], [order[n]], store);
    OneParentListed(store, order[n]);
  }

  lemma {:induction false} ParentsAreCounted(store: Store, order: seq<string>, i: nat)
    requires Stored(order, store) && i <= |order|
    ensures Stored(order[..i], store) && |ActiveParents(order[..i], store)| == PlansBefore(store, order, i)
  {
    if i > 0 {
      ParentsAreCounted(store, order, i - 1);
      OneMoreListed(store, order, i - 1);
      OneMoreBefore(store, order, i - 1);
    }
  }

  lemma {:induction false} ParentsMembers(order: seq<string>, store: Store)
    requires Stored(order, store)
    ensures forall p :: p in ActiveParents(order, store) <==> p in order && IsActivePlan(store[p])
    ensures NoDuplicates(order) ==> NoDuplicates(ActiveParents(order, store))
  {
    if order != [] {
      var rest := order[1..];
      assert order == [order[0]] + rest;
      ParentsMembers(rest, store);
      NoDuplicatesCons(order[0], rest);
      NoDuplicatesCons(order[0], ActiveParents(rest, store));
    }
  }

  lemma ParentAt(store: Store, order: seq<string>, i: nat)
    requires Stored(order, store) && i < |order| && IsActivePlan(store[order[i]])
    ensures var n, parents := PlansBefore(store, order, i), ActiveParents(order, store);
      n < |parents| && parents[n] == order[i]
  {
    ParentsAreCounted(store, order, i);
    OneMoreListed(store, order, i);
    assert order == order[..i + 1] + order[i + 1..];
    ParentsAppend(order[..i + 1], order[i + 1..], store);
  }

  /** Which plans a tick drives: the first of those active before it, up to the bound. */
  lemma DrivenIff(store: Store, order: seq<string>, maxGoals: int, i: nat)
    requires Stored(order, store) && NoDuplicates(order) && i < |order|
    ensures order[i] in Upto(ActiveParents(order, store), maxGoals) <==>
      IsActivePlan(store[order[i]]) && PlansBefore(store, order, i) < Quota(store, order, maxGoals)
  {
    var parents := ActiveParents(order, store);
    ParentsMembers(order, store);
    ParentsAreCounted(store, order, |order|);
    assert order[..|order|] == order;
    if IsActivePlan(store[order[i]]) {
      ParentAt(store, order, i);
      InPrefixIff(parents, PlansBefore(store, order, i), Upto(parents, maxGoals));
    } else {
      assert order[i] !in parents;
    }
  }

  lemma InPrefixIff(s: seq<string>, i: nat, t: seq<string>)
    requires NoDuplicates(s) && i < |s| && t <= s
    ensures s[i] in t <==> i < |t|
  {
    if i < |t| { assert t[i] == s[i]; }
    if s[i] in t {
      var j :| 0 <= j < |t| && t[j] == s[i];
      assert s[j] == s[i];
    }
  }

  /** Driving another plan leaves an active plan active, with its children. */
  lemma DriveLeavesPlan(store: Store, q: string, p: string)
    requires Sound(store) && q in store && p in store && p != q && IsActivePlan(store[p])
    ensures Drive(store, q)[p] == store[p]
  {
    match NextMove(store, q) {
      case Advance(t) => var i := AdvanceTargets(store, q);
      case _ =>
    }
  }

  /** Nor does it touch the next draft of a plan. */
  lemma DriveLeavesDraft(store: Store, q: string, p: string, n: nat)
    requires Sound(store) && q in store && p in store && p != q && IsActivePlan(store[q]) && NextDraft(store, p, n)
    ensures Drive(store, q)[store[p].children[n]] == store[store[p].children[n]]
  {
    var t := store[p].children[n];
    match NextMove(store, q) {
      case Advance(u) =>
        var i := AdvanceTargets(store, q);
        if u == t { OnePlace(store, p, q, n, i); }
      case _ =>
    }
  }

  lemma DriveKeepsNextDraft(store: Store, q: string, p: string, n: nat)
    requires Sound(store) && q in store && p in store && p != q && IsActivePlan(store[q]) && IsActivePlan(store[p])
    requires NextDraft(store, p, n)
    ensures NextDraft(Drive(store, q), p, n)
  {
    var ids := store[p].children;
    DriveLeavesPlan(store, q, p);
    DriveLeavesDraft(store, q, p, n);
    forall j | 0 <= j < n && ids[j] in store ensures !IsOpen(Drive(store, q)[ids[j]]) {
      DriveCloses(store, q, ids[j]);
    }
  }

  /** The first open child of a plan is found by scanning. */
  lemma {:induction false} FirstOpenIs(ids: seq<string>, store: Store, n: nat)
    requires n < |ids| && ids[n] in store && IsOpen(store[ids[n]])
    requires forall j :: 0 <= j < n && ids[j] in store ==> !IsOpen(store[ids[j]])
    ensures var open := Select(Kids(ids, store), IsOpen); open != [] && open[0] == store[ids[n]]
  {
    KidsHead(ids, store);
    if n > 0 {
      var rest := ids[1..];
      assert rest[n - 1] == ids[n] && forall j :: 0 <= j < n - 1 ==> rest[j] == ids[j + 1];
      FirstOpenIs(rest, store, n - 1);
    }
  }

  lemma DriveAdvances(store: Store, p: string, n: nat)
    requires Sound(store) && p in store && IsActivePlan(store[p]) && NextDraft(store, p, n)
    ensures var t := store[p].children[n]; Drive(store, p) == store[t := store[t].(status := Active)]
  {
    var ids := store[p].children;
    var kids := Kids(ids, store);
    FirstOpenIs(ids, store, n);
    KidsResolveAgain(ids, store);
    PlanActionIs(store[p], kids);
    ActivatingUsesDraft(store, p, ids[n]);
  }

  lemma DriveCompletes(store: Store, p: string)
    requires Sound(store) && p in store && IsActivePlan(store[p]) && StepsOver(store, store[p])
    ensures Drive(store, p)
      == store[p := store[p].(status := Done, evidence := store[p].evidence + [Evidence("verification", "", None)])]
  {
    var ids := store[p].children;
    var kids := Kids(ids, store);
    KidsMembers(ids, store);
    KidsResolveAgain(ids, store);
    PlanActionIs(store[p], kids);
    var c :| c in ids && c in store;
    assert store[c] in kids;
    SelectNone(kids, IsOpen);
    ClosingIsLegal(store, p, p);
  }

  ghost predicate ActivePlans(pids: seq<string>, store: Store) {
    forall p :: p in pids ==> p in store && IsActivePlan(store[p])
  }

  /** The plans left to drive, after driving the first. */
  lemma RestArePlans(store: Store, pids: seq<string>)
    requires Sound(store) && pids != [] && ActivePlans(pids, store) && NoDuplicates(pids)
    ensures ActivePlans(pids[1..], Drive(store, pids[0])) && NoDuplicates(pids[1..]) && pids[0] !in pids[1..]
  {
    var rest := pids[1..];
    assert pids == [pids[0]] + rest;
    NoDuplicatesCons(pids[0], rest);
    forall p | p in rest ensures p in store && IsActivePlan(Drive(store, pids[0])[p]) {
      DriveLeavesPlan(store, pids[0], p);
    }
  }

  lemma {:induction false} DrivesAdvance(store: Store, pids: seq<string>, p: string, n: nat)
    requires Sound(store) && ActivePlans(pids, store) && NoDuplicates(pids) && p in pids && NextDraft(store, p, n)
    ensures var t := store[p].children[n]; DriveAll(store, pids)[t] == store[t].(status := Active)
    decreases pids
  {
    var q, rest := pids[0], pids[1..];
    var t := store[p].children[n];
    var next := Drive(store, q);
    RestArePlans(store, pids);
    DriveKeepsSound(store, q);
    if p == q {
      DriveAdvances(store, p, n);
      assert t !in rest;
      DrivesLeave(next, rest, t);
    } else {
      DriveLeavesPlan(store, q, p);
      DriveLeavesDraft(store, q, p, n);
      DriveKeepsNextDraft(store, q, p, n);
      DrivesAdvance(next, rest, p, n);
    }
  }

  lemma StepsStayOver(store: Store, q: string, p: string)
    requires Sound(store) && q in store && p in store && StepsOver(store, store[p])
    ensures StepsOver(Drive(store, q), store[p])
  {
    var c :| c in store[p].children && c in store;
    assert c in Drive(store, q);
    forall c | c in store[p].children && c in store ensures !IsOpen(Drive(store, q)[c]) { DriveCloses(store, q, c); }
  }

  lemma {:induction false} DrivesClose(store: Store, pids: seq<string>, p: string)
    requires Sound(store) && ActivePlans(pids, store) && NoDuplicates(pids) && p in pids && StepsOver(store, store[p])
    ensures DriveAll(store, pids)[p]
      == store[p].(status := Done, evidence := store[p].evidence + [Evidence("verification", "", None)])
    decreases pids
  {
    var q, rest := pids[0], pids[1..];
    var next := Drive(store, q);
    RestArePlans(store, pids);
    DriveKeepsSound(store, q);
    if p == q {
      DriveCompletes(store, p);
      DrivesLeave(next, rest, p);
    } else {
      DriveLeavesPlan(store, q, p);
      StepsStayOver(store, q, p);
      DrivesClose(next, rest, p);
    }
  }

  /** Over already, or a finished leaf that the tick itself closes. */
  ghost predicate OverByNow(g: Goal) {
    g.status in {Done, Abandoned} || (g.status == Active && g.children == [] && Finished(g))
  }

  lemma OverOnceSettled(g: Goal, maxAttempts: int)
    requires OverByNow(g)
    ensures !IsOpen(Settle(RollUp(g), maxAttempts))
  {
    RollUpMoves(g);
    CompleteIff(g);
  }

  lemma SettlingLeaves(g: Goal, maxAttempts: int)
    requires !IsActiveLeaf(g)
    ensures Settle(RollUp(g), maxAttempts) == g
  {}

  lemma TickDrives(store: Store, order: seq<string>, maxGoals: int, maxAttempts: int)
    requires Sound(store) && Stored(order, store) && NoDuplicates(order)
    ensures var settled, pids := SettleAll(store, maxAttempts), Upto(ActiveParents(order, store), maxGoals);
      && Sound(settled) && ActivePlans(pids, settled) && NoDuplicates(pids)
      && Ticked(store, order, maxGoals, maxAttempts) == DriveAll(settled, pids)
  {
    var parents := ActiveParents(order, store);
    var pids := Upto(parents, maxGoals);
    ParentsMembers(order, store);
    SettleAllKeepsSound(store, maxAttempts);
    forall p | p in pids ensures p in store && IsActivePlan(SettleAll(store, maxAttempts)[p]) {
      assert p in parents;
      SettlingLeaves(store[p], maxAttempts);
    }
  }

  /** Within the bound, the first step of an active plan that is neither over nor a leaf finishing in this
      very tick is activated, if it is a draft. */
  lemma PlanAdvancesInSameTick(store: Store, order: seq<string>, maxGoals: int, maxAttempts: int, i: nat, n: nat)
    requires Sound(store) && Stored(order, store) && NoDuplicates(order) && i < |order|
    requires IsActivePlan(store[order[i]]) && PlansBefore(store, order, i) < Quota(store, order, maxGoals)
    requires var ids := store[order[i]].children; n < |ids| && ids[n] in store && store[ids[n]].status == Draft
    requires forall j :: 0 <= j < n && store[order[i]].children[j] in store ==>
      OverByNow(store[store[order[i]].children[j]])
    ensures var t := store[order[i]].children[n];
      Ticked(store, order, maxGoals, maxAttempts)[t] == store[t].(status := Active)
  {
    var p := order[i];
    var ids := store[p].children;
    var settled := SettleAll(store, maxAttempts);
    DrivenIff(store, order, maxGoals, i);
    TickDrives(store, order, maxGoals, maxAttempts);
    SettlingLeaves(store[p], maxAttempts);
    SettlingLeaves(store[ids[n]], maxAttempts);
    forall j | 0 <= j < n && ids[j] in store ensures !IsOpen(settled[ids[j]]) {
      OverOnceSettled(store[ids[j]], maxAttempts);
    }
    DrivesAdvance(settled, Upto(ActiveParents(order, store), maxGoals), p, n);
  }

  /** Within the bound, an active plan with some step in the store, each such step over or a leaf finishing
      in this very tick, is closed by the tick. */
  lemma PlanClosesInSameTick(store: Store, order: seq<string>, maxGoals: int, maxAttempts: int, i: nat)
    requires Sound(store) && Stored(order, store) && NoDuplicates(order) && i < |order|
    requires IsActivePlan(store[order[i]]) && PlansBefore(store, order, i) < Quota(store, order, maxGoals)
    requires exists c :: c in store[order[i]].children && c in store
    requires forall c :: c in store[order[i]].children && c in store ==> OverByNow(store[c])
    ensures var g, r := store[order[i]], Ticked(store, order, maxGoals, maxAttempts)[order[i]];
      r == g.(status := Done, evidence := g.evidence + [Evidence("verification", "", None)])
  {
    var p := order[i];
    var settled := SettleAll(store, maxAttempts);
    DrivenIff(store, order, maxGoals, i);
    TickDrives(store, order, maxGoals, maxAttempts);
    SettlingLeaves(store[p], maxAttempts);
    forall c | c in store[p].children && c in store ensures !IsOpen(settled[c]) {
      OverOnceSettled(store[c], maxAttempts);
    }
    DrivesClose(settled, Upto(ActiveParents(order, store), maxGoals), p);
  }

  // ---------------------------------------------------------------------------------------------
  // What a tick leaves
  // ---------------------------------------------------------------------------------------------

  /** A step of one of the plans, with every earlier step over. */
  ghost predicate StepReached(store: Store, pids: seq<string>, k: string) {
    exists p, n: nat :: p in pids && StepReachedIn(store, p, n, k)
  }

  ghost predicate StepReachedIn(store: Store, p: string, n: nat, k: string) {
    && p in store && n < |store[p].children| && store[p].children[n] == k
    && forall j :: 0 <= j < n && store[p].children[j] in store ==>
         store[store[p].children[j]].status in {Done, Abandoned}
  }

  /** What driving plans does to a goal: nothing, or the activation of a draft that its plan has reached, or
      the closing of a plan whose steps are over. */
  ghost predicate DrivenTo(g: Goal, r: Store, pids: seq<string>, k: string)
    requires k in r
  {
    || r[k] == g
    || (g.status == Draft && r[k] == g.(status := Active) && StepReached(r, pids, k))
    || (k in pids && StepsOver(r, g)
        && r[k] == g.(status := Done, evidence := g.evidence + [Evidence("verification", "", None)]))
  }

  lemma AdvancedTo(store: Store, pids: seq<string>, n: nat)
    requires Sound(store) && pids != [] && ActivePlans(pids, store) && NoDuplicates(pids)
    requires NextDraft(store, pids[0], n)
    ensures DrivenTo(store[store[pids[0]].children[n]], DriveAll(store, pids), pids, store[pids[0]].children[n])
  {
    var p := pids[0];
    var ids, r := store[p].children, DriveAll(store, pids);
    RestArePlans(store, pids);
    DriveAdvances(store, p, n);
    DrivesLeave(Drive(store, p), pids[1..], ids[n]);
    DriveAllCloses(store, pids, p);
    forall j | 0 <= j < n && ids[j] in r ensures r[ids[j]].status in {Done, Abandoned} {
      DriveAllCloses(store, pids, ids[j]);
    }
    assert StepReachedIn(r, p, n, ids[n]);
  }

  lemma ClosedTo(store: Store, pids: seq<string>)
    requires Sound(store) && pids != [] && ActivePlans(pids, store) && NoDuplicates(pids)
    requires StepsOver(store, store[pids[0]])
    ensures DrivenTo(store[pids[0]], DriveAll(store, pids), pids, pids[0])
  {
    var p := pids[0];
    var r := DriveAll(store, pids);
    DrivesClose(store, pids, p);
    var c :| c in store[p].children && c in store;
    assert c in r;
    forall c | c in store[p].children && c in r ensures !IsOpen(r[c]) { DriveAllCloses(store, pids, c); }
  }

  lemma {:induction false} DrivesChange(store: Store, pids: seq<string>, k: string)
    requires Sound(store) && ActivePlans(pids, store) && NoDuplicates(pids) && k in store
    ensures DrivenTo(store[k], DriveAll(store, pids), pids, k)
    decreases pids
  {
    if pids != [] {
      var next := Drive(store, pids[0]);
      if next[k] == store[k] {
        RestArePlans(store, pids);
        DriveKeepsSound(store, pids[0]);
        DrivesChange(next, pids[1..], k);
        LaterDrives(store[k], DriveAll(store, pids), pids, k);
      } else {
        FirstDriveChanges(store, pids, k);
      }
    }
  }

  lemma LaterDrives(g: Goal, r: Store, pids: seq<string>, k: string)
    requires pids != [] && k in r && DrivenTo(g, r, pids[1..], k)
    ensures DrivenTo(g, r, pids, k)
  {
    assert forall p :: p in pids[1..] ==> p in pids;
  }

  lemma FirstDriveChanges(store: Store, pids: seq<string>, k: string)
    requires Sound(store) && pids != [] && ActivePlans(pids, store) && NoDuplicates(pids)
    requires k in store && Drive(store, pids[0])[k] != store[k]
    ensures DrivenTo(store[k], DriveAll(store, pids), pids, k)
  {
    match NextMove(store, pids[0]) {
      case Advance(t) =>
        var n := AdvanceTargets(store, pids[0]);
        AdvancedTo(store, pids, n);
      case Complete(_) =>
        CompleteMeansOver(store, pids[0]);
        ClosedTo(store, pids);
      case _ =>
    }
  }

  /** A goal that is no active leaf changes in two ways only: a draft is activated, as a step that its plan
      has reached, or an active plan is closed, when all its steps are over. Both need a plan within the
      bound. */
  lemma OtherGoalsChangeOnly(store: Store, order: seq<string>, maxGoals: int, maxAttempts: int, k: string)
    requires Sound(store) && Stored(order, store) && NoDuplicates(order)
    requires k in store && !(store[k].status == Active && store[k].children == [])
    ensures var pids := Upto(ActiveParents(order, store), maxGoals);
      DrivenTo(store[k], Ticked(store, order, maxGoals, maxAttempts), pids, k)
  {
    TickDrives(store, order, maxGoals, maxAttempts);
    SettlingLeaves(store[k], maxAttempts);
    DrivesChange(SettleAll(store, maxAttempts), Upto(ActiveParents(order, store), maxGoals), k);
  }
}
