/** Ticks alone: they come to rest, and which plans they may leave behind
    (packages/forgekit-runtime/src/forgekit_runtime/runtime/goal_continuation_tick.py, lines 106-185). */
module GoalRest {
  import opened GoalModel
  import opened GoalPlanning
  import opened GoalTick
  import opened Sequences
  import opened Wrappers

  // ---------------------------------------------------------------------------------------------
  // Ticks come to rest
  // ---------------------------------------------------------------------------------------------

  function StatusWork(s: Status): nat {
    match s
    case Draft => 3
    case Active => 2
    case Blocked => 1
    case AwaitingApproval => 1
    case _ => 0
  }

  /** What ticks can still do to a goal: moves of its status, and retries. */
  function Work(g: Goal, maxAttempts: int): nat {
    StatusWork(g.status) + if Attempts(g.evidence) < maxAttempts then maxAttempts - Attempts(g.evidence) else 0
  }

  ghost predicate Less(g: Goal, g': Goal, maxAttempts: int) {
    g' == g || Work(g', maxAttempts) < Work(g, maxAttempts)
  }

  /** Every goal is as it was or has less work left. */
  ghost predicate AllLess(store: Store, store': Store, maxAttempts: int) {
    store'.Keys == store.Keys && forall k :: k in store ==> Less(store[k], store'[k], maxAttempts)
  }

  lemma MovedIsLess(g: Goal, e: Evidence, dst: Status, maxAttempts: int)
    requires e.kind != REPLANNED && StatusWork(dst) < StatusWork(g.status)
    ensures Less(g, Moved(g, g.AddEvidence(e), dst), maxAttempts)
  {
    assert (g.evidence + [e])[..|g.evidence|] == g.evidence;
  }

  lemma RollUpIsLess(g: Goal, maxAttempts: int)
    ensures Less(g, RollUp(g), maxAttempts)
  {
    if IsActiveLeaf(g) { MovedIsLess(g, VERIFIED, Done, maxAttempts); }
  }

  /** A retry uses up an attempt. */
  lemma RetryIsLess(g: Goal, maxAttempts: int)
    requires ReplanOf(g, maxAttempts).Retry?
    ensures var d := ReplanOf(g, maxAttempts);
      Work(ApplyRetry(g, d.unlink, d.reason), maxAttempts) == Work(g, maxAttempts) - 1
  {
    RetryClears(g, maxAttempts);
    RetryWithinBound(g, maxAttempts);
  }

  lemma RetryWithinBound(g: Goal, maxAttempts: int)
    requires ReplanOf(g, maxAttempts).Retry?
    ensures Attempts(g.evidence) < maxAttempts
  {
    ExhaustedStuckEscalates(g, maxAttempts);
  }

  lemma DecidedIsLess(g: Goal, d: ReplanDecision, maxAttempts: int)
    requires g.status == Active
    requires d.Retry? ==> Work(ApplyRetry(g, d.unlink, d.reason), maxAttempts) < Work(g, maxAttempts)
    ensures Less(g, Decided(g, d), maxAttempts)
  {
    if d.Escalate? { MovedIsLess(g, Evidence(STUCK, d.reason, None), AwaitingApproval, maxAttempts); }
  }

  lemma SettleIsLess(g: Goal, maxAttempts: int)
    ensures Less(g, Settle(g, maxAttempts), maxAttempts)
  {
    if IsActiveLeaf(g) {
      var d := ReplanOf(g, maxAttempts);
      if d.Retry? { RetryIsLess(g, maxAttempts); }
      DecidedIsLess(g, d, maxAttempts);
    }
  }

  lemma SettleAllIsLess(store: Store, maxAttempts: int)
    ensures AllLess(store, SettleAll(store, maxAttempts), maxAttempts)
  {
    forall k | k in store ensures Less(store[k], SettleAll(store, maxAttempts)[k], maxAttempts) {
      RollUpIsLess(store[k], maxAttempts);
      SettleIsLess(RollUp(store[k]), maxAttempts);
    }
  }

  lemma OneIsLess(store: Store, k: string, g: Goal, maxAttempts: int)
    requires k in store && Less(store[k], g, maxAttempts)
    ensures AllLess(store, store[k := g], maxAttempts)
  {}

  lemma ActivatedIsLess(g: Goal, maxAttempts: int)
    requires g.status == Draft
    ensures Less(g, g.(status := Active), maxAttempts)
  {}

  lemma AdvanceIsLess(store: Store, pid: string, t: string, maxAttempts: int)
    requires pid in store && t in store && store[t].status == Draft
    ensures AllLess(store, Driven(store, pid, Advance(t)), maxAttempts)
  {
    ActivatingUsesDraft(store, pid, t);
    ActivatedIsLess(store[t], maxAttempts);
    OneIsLess(store, t, store[t].(status := Active), maxAttempts);
  }

  lemma CompleteIsLess(store: Store, pid: string, t: string, maxAttempts: int)
    requires pid in store && IsOpen(store[pid])
    ensures AllLess(store, Driven(store, pid, Complete(t)), maxAttempts)
  {
    MovedIsLess(store[pid], VERIFIED, Done, maxAttempts);
    OneIsLess(store, pid, Moved(store[pid], store[pid].AddEvidence(VERIFIED), Done), maxAttempts);
  }

  lemma DriveIsLess(store: Store, pid: string, maxAttempts: int)
    requires Sound(store) && pid in store
    ensures AllLess(store, Drive(store, pid), maxAttempts)
  {
    match NextMove(store, pid) {
      case Advance(t) =>
        var i := AdvanceTargets(store, pid);
        AdvanceIsLess(store, pid, t, maxAttempts);
      case Complete(t) =>
        NextMoveIs(store, pid);
        CompleteIsLess(store, pid, t, maxAttempts);
      case _ =>
    }
  }

  lemma {:induction false} DriveAllIsLess(store: Store, pids: seq<string>, maxAttempts: int)
    requires Sound(store) && forall p :: p in pids ==> p in store
    ensures AllLess(store, DriveAll(store, pids), maxAttempts)
    decreases pids
  {
    if pids != [] {
      DriveKeepsSound(store, pids[0]);
      DriveIsLess(store, pids[0], maxAttempts);
      DriveAllIsLess(Drive(store, pids[0]), pids[1..], maxAttempts);
    }
  }

  lemma TickIsLess(store: Store, order: seq<string>, maxGoals: int, maxAttempts: int)
    requires Sound(store) && forall k :: k in order ==> k in store
    ensures AllLess(store, Ticked(store, order, maxGoals, maxAttempts), maxAttempts)
  {
    SettleAllKeepsSound(store, maxAttempts);
    SettleAllIsLess(store, maxAttempts);
    DriveAllIsLess(SettleAll(store, maxAttempts), Upto(ActiveParents(order, store), maxGoals), maxAttempts);
  }

  /** The work left in the goals of a list. */
  function TotalWork(store: Store, ids: seq<string>, maxAttempts: int): nat
    requires forall k :: k in ids ==> k in store
  {
    if ids == [] then 0 else Work(store[ids[0]], maxAttempts) + TotalWork(store, ids[1..], maxAttempts)
  }

  lemma {:induction false} LessInTotal(store: Store, store': Store, ids: seq<string>, maxAttempts: int)
    requires AllLess(store, store', maxAttempts) && forall k :: k in ids ==> k in store
    ensures TotalWork(store', ids, maxAttempts) <= TotalWork(store, ids, maxAttempts)
    ensures (exists k :: k in ids && store'[k] != store[k]) ==>
      TotalWork(store', ids, maxAttempts) < TotalWork(store, ids, maxAttempts)
  {
    if ids != [] {
      assert ids == [ids[0]] + ids[1..];
      LessInTotal(store, store', ids[1..], maxAttempts);
    }
  }

  ghost predicate Lists(order: seq<string>, store: Store) {
    forall k :: k in order <==> k in store
  }

  /** All goals listed for a tick are in the store. */
  predicate Stored(order: seq<string>, store: Store) {
    forall k :: k in order ==> k in store
  }

  /** A tick that changes the store at all uses up work, counted over any fixed listing `ids` and in
      whatever order the tick itself lists goals. */
  lemma TickUsesUpWork(store: Store, ids: seq<string>, order: seq<string>, maxGoals: int, maxAttempts: int)
    requires Sound(store) && Lists(ids, store) && Stored(order, store)
    ensures var r := Ticked(store, order, maxGoals, maxAttempts);
      && Sound(r) && r.Keys == store.Keys
      && (r != store ==> TotalWork(r, ids, maxAttempts) < TotalWork(store, ids, maxAttempts))
  {
    var r := Ticked(store, order, maxGoals, maxAttempts);
    TickKeepsSound(store, order, maxGoals, maxAttempts);
    TickIsLess(store, order, maxGoals, maxAttempts);
    LessInTotal(store, r, ids, maxAttempts);
    if r != store {
      var k :| k in store && r[k] != store[k];
      assert k in ids;
    }
  }

  /** A further tick changes nothing. It saves nothing then, so the next one lists the same. */
  ghost predicate AtRest(store: Store, order: seq<string>, maxGoals: int, maxAttempts: int) {
    Sound(store) && Lists(order, store) && Ticked(store, order, maxGoals, maxAttempts) == store
  }

  predicate AllStored(orders: seq<seq<string>>, store: Store) {
    forall i :: 0 <= i < |orders| ==> Stored(orders[i], store)
  }

  /** The store after one tick for each order. */
  function AfterTicks(store: Store, orders: seq<seq<string>>, maxGoals: int, maxAttempts: int): (r: Store)
    requires AllStored(orders, store)
    ensures r.Keys == store.Keys
    decreases orders
  {
    if orders == [] then store
    else AfterTicks(Ticked(store, orders[0], maxGoals, maxAttempts), orders[1..], maxGoals, maxAttempts)
  }

  /** How many of the ticks change the store. */
  function Changes(store: Store, orders: seq<seq<string>>, maxGoals: int, maxAttempts: int): nat
    requires AllStored(orders, store)
    decreases orders
  {
    if orders == [] then 0
    else
      var next := Ticked(store, orders[0], maxGoals, maxAttempts);
      (if next == store then 0 else 1) + Changes(next, orders[1..], maxGoals, maxAttempts)
  }

  /** However each tick lists the goals, the ticks that change the store are at most as many as there is
      work, and each of them uses some up. */
  lemma {:induction false} ChangesAreBounded(store: Store, ids: seq<string>, orders: seq<seq<string>>, maxGoals: int,
                                             maxAttempts: int)
    requires Sound(store) && Lists(ids, store) && AllStored(orders, store)
    ensures var r := AfterTicks(store, orders, maxGoals, maxAttempts);
      && Sound(r)
      && Changes(store, orders, maxGoals, maxAttempts) + TotalWork(r, ids, maxAttempts)
         <= TotalWork(store, ids, maxAttempts)
    decreases orders
  {
    if orders != [] {
      TickUsesUpWork(store, ids, orders[0], maxGoals, maxAttempts);
      ChangesAreBounded(Ticked(store, orders[0], maxGoals, maxAttempts), ids, orders[1..], maxGoals, maxAttempts);
    }
  }

  ghost predicate AllList(orders: seq<seq<string>>, store: Store) {
    forall i :: 0 <= i < |orders| ==> Lists(orders[i], store)
  }

  /** The first `n` ticks of a run, after one more. */
  lemma AfterTicksNext(store: Store, orders: seq<seq<string>>, maxGoals: int, maxAttempts: int, n: nat)
    requires n < |orders| && AllStored(orders, store)
    ensures AfterTicks(store, orders[..n + 1], maxGoals, maxAttempts)
      == AfterTicks(Ticked(store, orders[0], maxGoals, maxAttempts), orders[1..][..n], maxGoals, maxAttempts)
  {
    assert orders[..n + 1][1..] == orders[1..][..n];
  }

  lemma LaterLists(orders: seq<seq<string>>, store: Store, next: Store)
    requires orders != [] && AllList(orders, store) && next.Keys == store.Keys
    ensures AllList(orders[1..], next)
  {
    var later := orders[1..];
    forall i | 0 <= i < |later| ensures Lists(later[i], next) { assert later[i] == orders[i + 1]; }
  }

  /** Tick `n` of the run finds the store at rest. */
  ghost predicate RestsAt(store: Store, orders: seq<seq<string>>, maxGoals: int, maxAttempts: int, n: nat) {
    && n < |orders| && AllStored(orders, store)
    && AtRest(AfterTicks(store, orders[..n], maxGoals, maxAttempts), orders[n], maxGoals, maxAttempts)
  }

  lemma RestsNow(store: Store, orders: seq<seq<string>>, maxGoals: int, maxAttempts: int)
    requires orders != [] && AllList(orders, store) && AtRest(store, orders[0], maxGoals, maxAttempts)
    ensures RestsAt(store, orders, maxGoals, maxAttempts, 0)
  {
    assert orders[..0] == [];
  }

  lemma RestsLater(store: Store, orders: seq<seq<string>>, maxGoals: int, maxAttempts: int, n: nat)
    requires orders != [] && AllList(orders, store)
    requires RestsAt(Ticked(store, orders[0], maxGoals, maxAttempts), orders[1..], maxGoals, maxAttempts, n)
    ensures RestsAt(store, orders, maxGoals, maxAttempts, n + 1)
  {
    AfterTicksNext(store, orders, maxGoals, maxAttempts, n);
    assert orders[1..][n] == orders[n + 1];
  }

  /** Ticks alone come to rest: however each of them lists the goals, among more ticks than there is work
      one finds the store at rest. */
  lemma {:induction false} TicksComeToRest(store: Store, ids: seq<string>, orders: seq<seq<string>>, maxGoals: int,
                                           maxAttempts: int) returns (n: nat)
    requires Sound(store) && Lists(ids, store) && AllList(orders, store)
    requires |orders| > TotalWork(store, ids, maxAttempts)
    ensures n <= TotalWork(store, ids, maxAttempts) && RestsAt(store, orders, maxGoals, maxAttempts, n)
    decreases |orders|
  {
    var next := Ticked(store, orders[0], maxGoals, maxAttempts);
    if next == store {
      RestsNow(store, orders, maxGoals, maxAttempts);
      n := 0;
    } else {
      TickUsesUpWork(store, ids, orders[0], maxGoals, maxAttempts);
      LaterLists(orders, store, next);
      n := TicksComeToRest(next, ids, orders[1..], maxGoals, maxAttempts);
      RestsLater(store, orders, maxGoals, maxAttempts, n);
      n := n + 1;
    }
  }

  lemma LessBothWays(store: Store, mid: Store, maxAttempts: int)
    requires AllLess(store, mid, maxAttempts) && AllLess(mid, store, maxAttempts)
    ensures mid == store
  {
    forall k | k in store ensures mid[k] == store[k] {
      assert Less(store[k], mid[k], maxAttempts) && Less(mid[k], store[k], maxAttempts);
    }
  }

  lemma {:induction false} RestingDrives(store: Store, pids: seq<string>, maxAttempts: int)
    requires Sound(store) && (forall p :: p in pids ==> p in store) && DriveAll(store, pids) == store
    ensures forall p :: p in pids ==> Drive(store, p) == store
    decreases pids
  {
    if pids != [] {
      DriveKeepsSound(store, pids[0]);
      DriveIsLess(store, pids[0], maxAttempts);
      DriveAllIsLess(Drive(store, pids[0]), pids[1..], maxAttempts);
      LessBothWays(store, Drive(store, pids[0]), maxAttempts);
      RestingDrives(store, pids[1..], maxAttempts);
    }
  }

  /** A plan no tick can move: it waits for its current step or for the operator, or no step of it
      resolves. */
  predicate Waits(store: Store, pid: string)
    requires pid in store
  {
    var a := NextMove(store, pid);
    a == Noop || a.Wait? || a.Replan?
  }

  /** Every active leaf is unfinished and not stuck. */
  ghost predicate LeavesSettled(store: Store) {
    forall k :: k in store && IsActiveLeaf(store[k]) ==> !IsGoalComplete(store[k]) && !IsStuck(store[k])
  }

  ghost predicate AllWait(store: Store, pids: seq<string>) {
    forall p :: p in pids ==> p in store && Waits(store, p)
  }

  /** A store is at rest exactly when no active leaf is finished or stuck and each plan the bound admits
      waits. */
  lemma AtRestIff(store: Store, order: seq<string>, maxGoals: int, maxAttempts: int)
    requires Sound(store) && Lists(order, store)
    ensures AtRest(store, order, maxGoals, maxAttempts) <==>
      LeavesSettled(store) && AllWait(store, Upto(ActiveParents(order, store), maxGoals))
  {
    if AtRest(store, order, maxGoals, maxAttempts) { AtRestAllWait(store, order, maxGoals, maxAttempts); }
    if LeavesSettled(store) && AllWait(store, Upto(ActiveParents(order, store), maxGoals)) {
      SettledStays(store, maxAttempts);
      WaitingStays(store, Upto(ActiveParents(order, store), maxGoals));
    }
  }

  lemma AtRestAllWait(store: Store, order: seq<string>, maxGoals: int, maxAttempts: int)
    requires AtRest(store, order, maxGoals, maxAttempts)
    ensures LeavesSettled(store) && AllWait(store, Upto(ActiveParents(order, store), maxGoals))
  {
    var settled := SettleAll(store, maxAttempts);
    var pids := Upto(ActiveParents(order, store), maxGoals);
    SettleAllKeepsSound(store, maxAttempts);
    SettleAllIsLess(store, maxAttempts);
    DriveAllIsLess(settled, pids, maxAttempts);
    LessBothWays(store, settled, maxAttempts);
    forall k | k in store && IsActiveLeaf(store[k]) ensures !IsGoalComplete(store[k]) && !IsStuck(store[k]) {
      assert settled[k] == store[k];
      RestingLeaf(store[k], maxAttempts);
    }
    RestingDrives(store, pids, maxAttempts);
    forall p | p in pids ensures Waits(store, p) { RestingParent(store, p); }
  }

  lemma SettledStays(store: Store, maxAttempts: int)
    requires LeavesSettled(store)
    ensures SettleAll(store, maxAttempts) == store
  {
    forall k | k in store ensures Settle(RollUp(store[k]), maxAttempts) == store[k] {
      RollUpMoves(store[k]);
      if IsActiveLeaf(store[k]) { ExhaustedStuckEscalates(store[k], maxAttempts); }
    }
  }

  lemma {:induction false} WaitingStays(store: Store, pids: seq<string>)
    requires AllWait(store, pids)
    ensures DriveAll(store, pids) == store
    decreases pids
  {
    if pids != [] {
      assert pids[0] in pids;
      assert Drive(store, pids[0]) == store;
      WaitingStays(store, pids[1..]);
    }
  }

  lemma RestingLeaf(g: Goal, maxAttempts: int)
    requires IsActiveLeaf(g) && Settle(RollUp(g), maxAttempts) == g
    ensures !IsGoalComplete(g) && !IsStuck(g)
  {
    RollUpMoves(g);
    if !IsGoalComplete(g) { NothingIsLeftStuck(g, maxAttempts); }
  }

  lemma RestingParent(store: Store, p: string)
    requires Sound(store) && p in store && store[p].status == Active && Drive(store, p) == store
    ensures Waits(store, p)
  {
    match NextMove(store, p) {
      case Advance(t) =>
        var i := AdvanceTargets(store, p);
        ActivatingUsesDraft(store, p, t);
      case Complete(t) => ClosingIsLegal(store, p, t);
      case _ =>
    }
  }

  // ---------------------------------------------------------------------------------------------
  // Plans past the bound
  // ---------------------------------------------------------------------------------------------

  /** The name of plan or step `k`: names differ in length, and kinds in their letter. */
  function Name(c: char, k: nat): (r: string)
    ensures |r| == k + 1 && forall i :: 0 <= i < |r| ==> r[i] == c
  {
    seq(k + 1, _ => c)
  }

  /** An active plan whose one step is not in the store. */
  function DanglingPlan(k: nat): Goal {
    Goal(Name('p', k), "t", "", Active, None, None, [Name('d', k)], [], [])
  }

  /** `n` such plans, and an active plan with a draft step. */
  function Crowd(n: nat): Store {
    if n == 0 then
      map["z" := Goal("z", "t", "", Active, None, None, ["s"], [], []),
          "s" := Goal("s", "t", "", Draft, None, Some("z"), [], [], [])]
    else Crowd(n - 1)[Name('p', n - 1) := DanglingPlan(n - 1)]
  }

  function PlanNames(n: nat): (r: seq<string>)
    ensures |r| == n && forall i :: 0 <= i < n ==> r[i] == Name('p', i)
  {
    seq(n, i requires 0 <= i < n => Name('p', i))
  }

  /** The dangling plans are listed first. */
  function CrowdOrder(n: nat): seq<string> { PlanNames(n) + ["z"] + ["s"] }

  predicate IsDangling(k: string, n: nat) {
    0 < |k| <= n && k == Name('p', |k| - 1)
  }

  lemma {:induction false} CrowdHas(n: nat, k: string)
    ensures k in Crowd(n) <==> k == "z" || k == "s" || IsDangling(k, n)
    ensures "z" in Crowd(n) && Crowd(n)["z"] == Crowd(0)["z"]
    ensures "s" in Crowd(n) && Crowd(n)["s"] == Crowd(0)["s"]
    ensures IsDangling(k, n) ==> Crowd(n)[k] == DanglingPlan(|k| - 1)
  {
    if n > 0 {
      CrowdHas(n - 1, k);
      var added := Name('p', n - 1);
      assert added[0] == 'p';
      assert "z"[0] != 'p' && "s"[0] != 'p';
    }
  }

  lemma CrowdListed(n: nat)
    ensures Lists(CrowdOrder(n), Crowd(n)) && NoDuplicates(CrowdOrder(n))
  {
    var order, names := CrowdOrder(n), PlanNames(n);
    forall k ensures k in order <==> k in Crowd(n) {
      CrowdHas(n, k);
      if IsDangling(k, n) { assert names[|k| - 1] == k; }
      if k in names {
        var i :| 0 <= i < n && names[i] == k;
        assert |k| == i + 1;
      }
    }
    forall i, j | 0 <= i < j < |order| ensures order[i] != order[j] {
      assert i < n ==> order[i] == Name('p', i) && order[i][0] == 'p';
      assert j < n ==> order[j] == Name('p', j);
      assert order[n] == "z" && order[n + 1] == "s" && "z"[0] == 'z' && "s"[0] == 's';
    }
  }

  lemma CrowdGoalWellFormed(n: nat, k: string)
    requires k in Crowd(n)
    ensures var g := Crowd(n)[k]; WellFormed(g) && g.id == k && |g.children| <= 1
  {
    CrowdHas(n, k);
    if IsDangling(k, n) {
      var d := Name('d', |k| - 1);
      assert d[0] == 'd' && k[0] == 'p' && d[|d| - 1] == 'd';
    }
  }

  lemma CrowdOneParent(n: nat, p: string, q: string, c: string)
    requires p in Crowd(n) && q in Crowd(n) && c in Crowd(n)[p].children && c in Crowd(n)[q].children
    ensures p == q
  {
    CrowdHas(n, p);
    CrowdHas(n, q);
    assert "s"[0] != 'd';
    if IsDangling(p, n) { assert c == Name('d', |p| - 1) && c[0] == 'd'; }
    if IsDangling(q, n) { assert c == Name('d', |q| - 1) && c[0] == 'd'; }
  }

  lemma CrowdSound(n: nat)
    ensures Sound(Crowd(n))
  {
    var store := Crowd(n);
    forall k | k in store ensures store[k].id == k && WellFormed(store[k]) && InOrder(store, k) {
      CrowdGoalWellFormed(n, k);
    }
    forall p, q, c | p in store && q in store && c in store[p].children && c in store[q].children ensures p == q {
      CrowdOneParent(n, p, q, c);
    }
  }

  lemma DanglingWaits(n: nat, k: nat)
    requires k < n
    ensures Name('p', k) in Crowd(n) && Waits(Crowd(n), Name('p', k))
  {
    var store, d := Crowd(n), Name('d', k);
    CrowdHas(n, Name('p', k));
    CrowdHas(n, d);
    assert d[0] == 'd' && "z"[0] == 'z' && "s"[0] == 's';
    assert Name('p', |d| - 1)[0] == 'p';
    assert Kids([d][1..], store) == [] && Kids([d], store) == [];
    CrowdSound(n);
    KidsResolveAgain([d], store);
  }

  lemma LastPlanCanMove(n: nat)
    ensures "z" in Crowd(n) && NextMove(Crowd(n), "z") == Advance("s")
  {
    var store := Crowd(n);
    CrowdHas(n, "z");
    CrowdHas(n, "s");
    assert ["s"][1..] == [] && Kids(["s"], store) == [store["s"]];
    CrowdSound(n);
    KidsResolveAgain(["s"], store);
  }

  lemma {:induction false} ParentsAppend(a: seq<string>, b: seq<string>, store: Store)
    requires forall k :: k in a + b ==> k in store
    ensures (forall k :: k in a ==> k in store) && (forall k :: k in b ==> k in store)
    ensures ActiveParents(a + b, store) == ActiveParents(a, store) + ActiveParents(b, store)
  {
    assert forall k :: k in b ==> k in a + b;
    if a == [] {
      assert a + b == b;
    } else {
      assert (a + b)[1..] == a[1..] + b;
      ParentsAppend(a[1..], b, store);
    }
  }

  lemma {:induction false} AllAreParents(order: seq<string>, store: Store)
    requires forall i :: 0 <= i < |order| ==>
      order[i] in store && store[order[i]].status == Active && store[order[i]].children != []
    ensures ActiveParents(order, store) == order
  {
    if order != [] {
      AllAreParents(order[1..], store);
      assert order == [order[0]] + order[1..];
    }
  }

  lemma CrowdParents(n: nat)
    ensures Lists(CrowdOrder(n), Crowd(n)) && ActiveParents(CrowdOrder(n), Crowd(n)) == PlanNames(n) + ["z"]
  {
    var store := Crowd(n);
    var plans := PlanNames(n) + ["z"];
    CrowdListed(n);
    CrowdHas(n, "z");
    CrowdHas(n, "s");
    forall i | 0 <= i < |plans|
      ensures plans[i] in store && store[plans[i]].status == Active && store[plans[i]].children != []
    {
      if i < n { CrowdHas(n, Name('p', i)); }
    }
    ParentsAppend(plans, ["s"], store);
    AllAreParents(plans, store);
    assert ActiveParents(["s"], store) == [] by { assert ["s"][1..] == []; }
  }

  /** How many plans a tick looks at for sure. */
  function Bound(maxGoals: int): nat { if maxGoals < 0 then 0 else maxGoals }

  lemma CrowdSettled(n: nat)
    ensures LeavesSettled(Crowd(n))
  {
    forall k | k in Crowd(n) ensures !IsActiveLeaf(Crowd(n)[k]) { CrowdHas(n, k); }
  }

  lemma CrowdWaits(n: nat)
    ensures AllWait(Crowd(n), PlanNames(n))
  {
    forall p | p in PlanNames(n) ensures p in Crowd(n) && Waits(Crowd(n), p) {
      var i :| 0 <= i < n && PlanNames(n)[i] == p;
      DanglingWaits(n, i);
    }
  }

  /** Plans that wait use up the bound: behind them a plan that could advance is never reached, and the
      store is at rest. */
  lemma CrowdStarves(maxGoals: int, maxAttempts: int)
    ensures var n := Bound(maxGoals); var store, order := Crowd(n), CrowdOrder(n);
      && AtRest(store, order, maxGoals, maxAttempts) && NoDuplicates(order)
      && ActiveParents(order, store) == PlanNames(n) + ["z"]
      && "z" in store && NextMove(store, "z") == Advance("s")
  {
    var n := Bound(maxGoals);
    CrowdListed(n);
    CrowdSound(n);
    CrowdParents(n);
    LastPlanCanMove(n);
    CrowdSettled(n);
    CrowdWaits(n);
    assert Upto(PlanNames(n) + ["z"], maxGoals) == PlanNames(n);
    AtRestIff(Crowd(n), CrowdOrder(n), maxGoals, maxAttempts);
  }

  /** If the store is at rest with at most `n` active plans, all of them wait. */
  ghost predicate NoneStarves(store: Store, order: seq<string>, maxGoals: int, maxAttempts: int, n: nat) {
    NoDuplicates(order) && AtRest(store, order, maxGoals, maxAttempts) && |ActiveParents(order, store)| <= n ==>
      AllWait(store, ActiveParents(order, store))
  }

  lemma NoneStarvesWithin(store: Store, order: seq<string>, maxGoals: int, maxAttempts: int, n: nat)
    requires n <= Bound(maxGoals)
    ensures NoneStarves(store, order, maxGoals, maxAttempts, n)
  {
    if AtRest(store, order, maxGoals, maxAttempts) { AtRestAllWait(store, order, maxGoals, maxAttempts); }
  }

  lemma SomeStarves(maxGoals: int, maxAttempts: int, n: nat)
    requires n > Bound(maxGoals)
    ensures !NoneStarves(Crowd(Bound(maxGoals)), CrowdOrder(Bound(maxGoals)), maxGoals, maxAttempts, n)
  {
    var plans := PlanNames(Bound(maxGoals)) + ["z"];
    CrowdStarves(maxGoals, maxAttempts);
    assert plans[Bound(maxGoals)] == "z" && "z" in plans;
  }

  /** Ticks reach every one of up to `n` active plans, in every store, exactly when the bound is at least
      `n`. */
  lemma NoneStarvesIff(maxGoals: int, maxAttempts: int, n: nat)
    ensures (forall store, order :: NoneStarves(store, order, maxGoals, maxAttempts, n)) <==> n <= Bound(maxGoals)
  {
    if n <= Bound(maxGoals) {
      forall store, order ensures NoneStarves(store, order, maxGoals, maxAttempts, n) {
        NoneStarvesWithin(store, order, maxGoals, maxAttempts, n);
      }
    } else {
      SomeStarves(maxGoals, maxAttempts, n);
    }
  }
}
