/** The continuation tick that advances the decomposed goals of a store
    (packages/forgekit-runtime/src/forgekit_runtime/runtime/goal_continuation_tick.py), and what holds
    over every run of ticks mixed with the other things that happen to goals. */
module GoalTick {
  import opened GoalModel
  import opened GoalPlanning
  import opened Sequences
  import opened Wrappers

  type Store = map<string, Goal>

  // ---------------------------------------------------------------------------------------------
  // One goal
  // ---------------------------------------------------------------------------------------------

  /** Applies a transition, keeping the goal as it was when the matrix refuses. */
  function Moved(g: Goal, g2: Goal, dst: Status): Goal {
    match Apply(g2, dst)
    case Raised => g
    case Ok(moved) => moved
  }

  predicate IsActiveLeaf(g: Goal) { g.status == Active && g.children == [] }

  const VERIFIED := Evidence(VERIFICATION, "", None)

  /** A finished active leaf is recorded as verified and closed. */
  function RollUp(g: Goal): Goal {
    if IsActiveLeaf(g) && IsGoalComplete(g) then Moved(g, g.AddEvidence(VERIFIED), Done) else g
  }

  /** What a replan decision does to a goal. */
  function Decided(g: Goal, d: ReplanDecision): Goal {
    match d
    case Nothing => g
    case Retry(unlink, _, reason) => ApplyRetry(g, unlink, reason)
    case Escalate(_, reason) => Moved(g, g.AddEvidence(Evidence(STUCK, reason, None)), AwaitingApproval)
  }

  /** A stuck active leaf is retried while attempts are left, then handed to the operator. */
  function Settle(g: Goal, maxAttempts: int): Goal {
    if IsActiveLeaf(g) then Decided(g, ReplanOf(g, maxAttempts)) else g
  }

  // ---------------------------------------------------------------------------------------------
  // One parent
  // ---------------------------------------------------------------------------------------------

  function NextMove(store: Store, pid: string): Action
    requires pid in store
  {
    ContinuationAction(store[pid], Kids(store[pid].children, store))
  }

  /** What a move does to the store: activate the next draft child, or close the parent. Any other
      answer changes nothing. */
  function Driven(store: Store, pid: string, a: Action): (r: Store)
    requires pid in store
    ensures r.Keys == store.Keys
  {
    match a
    case Advance(t) =>
      if t in store && store[t].status == Draft then store[t := Moved(store[t], store[t], Active)] else store
    case Complete(_) => store[pid := Moved(store[pid], store[pid].AddEvidence(VERIFIED), Done)]
    case _ => store
  }

  function Drive(store: Store, pid: string): (r: Store)
    requires pid in store
    ensures r.Keys == store.Keys
  {
    Driven(store, pid, NextMove(store, pid))
  }

  function DriveAll(store: Store, pids: seq<string>): Store
    requires forall p :: p in pids ==> p in store
    ensures DriveAll(store, pids).Keys == store.Keys
    decreases pids
  {
    if pids == [] then store else DriveAll(Drive(store, pids[0]), pids[1..])
  }

  /** The active decomposed goals, in the order given. */
  function ActiveParents(order: seq<string>, store: Store): (r: seq<string>)
    requires forall k :: k in order ==> k in store
    ensures forall p :: p in r ==> p in store && store[p].status == Active && store[p].children != []
  {
    if order == [] then []
    else (if store[order[0]].children != [] && store[order[0]].status == Active then [order[0]] else [])
         + ActiveParents(order[1..], store)
  }

  /** Python's `s[:n]`, which drops from the end when `n` is negative. */
  function Upto(s: seq<string>, n: int): (r: seq<string>)
    ensures r <= s
  {
    if n >= |s| then s else if n >= 0 then s[..n] else if |s| + n >= 0 then s[..|s| + n] else []
  }

  function SettleAll(store: Store, maxAttempts: int): Store {
    map k | k in store :: Settle(RollUp(store[k]), maxAttempts)
  }

  function Ticked(store: Store, order: seq<string>, maxGoals: int, maxAttempts: int): (r: Store)
    requires forall k :: k in order ==> k in store
    ensures r.Keys == store.Keys
  {
    DriveAll(SettleAll(store, maxAttempts), Upto(ActiveParents(order, store), maxGoals))
  }

  class ContinuationTicker {
    var store: Store
    const maxGoals: int
    const maxReplanAttempts: int

    constructor (store: Store, maxGoals: int, maxReplanAttempts: int)
      ensures this.store == store && this.maxGoals == maxGoals && this.maxReplanAttempts == maxReplanAttempts
    {
      this.store, this.maxGoals, this.maxReplanAttempts := store, maxGoals, maxReplanAttempts;
    }

    /** `order` lists the stored goals as they were loaded. */
    method Tick(order: seq<string>)
      requires NoDuplicates(order) && forall k :: k in order <==> k in store
      modifies this`store
      ensures store == Ticked(old(store), order, maxGoals, maxReplanAttempts)
    {
      var parents := Upto(ActiveParents(order, store), maxGoals);
      RollUpFinished(order);
      ReplanStuck(order);
      assert store == SettleAll(old(store), maxReplanAttempts);
      AdvancePlans(parents);
    }

    method RollUpFinished(order: seq<string>)
      requires NoDuplicates(order) && forall k :: k in order <==> k in store
      modifies this`store
      ensures store.Keys == old(store).Keys && forall k :: k in store ==> store[k] == RollUp(old(store)[k])
    {
      for i := 0 to |order|
        invariant store.Keys == old(store).Keys
        invariant forall k :: k in store ==>
          store[k] == if k in order[..i] then RollUp(old(store)[k]) else old(store)[k]
      {
        var g := store[order[i]];
        assert order[..i + 1] == order[..i] + [order[i]];
        assert order[i] !in order[..i];
        store := store[order[i] := RollUp(g)];
      }
      assert order[..|order|] == order;
    }

    method ReplanStuck(order: seq<string>)
      requires NoDuplicates(order) && forall k :: k in order <==> k in store
      modifies this`store
      ensures store.Keys == old(store).Keys
      ensures forall k :: k in store ==> store[k] == Settle(old(store)[k], maxReplanAttempts)
    {
      for i := 0 to |order|
        invariant store.Keys == old(store).Keys
        invariant forall k :: k in store ==>
          store[k] == if k in order[..i] then Settle(old(store)[k], maxReplanAttempts) else old(store)[k]
      {
        var g := store[order[i]];
        assert order[..i + 1] == order[..i] + [order[i]];
        assert order[i] !in order[..i];
        store := store[order[i] := Settle(g, maxReplanAttempts)];
      }
      assert order[..|order|] == order;
    }

    method AdvancePlans(parents: seq<string>)
      requires forall p :: p in parents ==> p in store
      modifies this`store
      ensures store == DriveAll(old(store), parents)
    {
      for i := 0 to |parents|
        invariant store.Keys == old(store).Keys
        invariant DriveAll(store, parents[i..]) == DriveAll(old(store), parents)
      {
        assert parents[i..][1..] == parents[i + 1..];
        store := Driven(store, parents[i], NextMove(store, parents[i]));
      }
    }
  }

  // ---------------------------------------------------------------------------------------------
  // The invariant
  // ---------------------------------------------------------------------------------------------

  ghost predicate IsChild(store: Store, c: string) {
    exists p :: p in store && c in store[p].children
  }

  /** A child is in flight only when every earlier step of its plan is done or abandoned. */
  ghost predicate InOrder(store: Store, p: string)
    requires p in store
  {
    var ids := store[p].children;
    forall i, j | 0 <= i < j < |ids| && ids[i] in store && ids[j] in store ::
      InFlight(store[ids[j]]) ==> !IsOpen(store[ids[i]])
  }

  ghost predicate OneParent(store: Store) {
    forall p, q, c :: p in store && q in store && c in store[p].children && c in store[q].children ==> p == q
  }

  ghost predicate Sound(store: Store) {
    && (forall k :: k in store ==> store[k].id == k && WellFormed(store[k]))
    && OneParent(store)
    && (forall p :: p in store ==> InOrder(store, p))
  }

  /** At most one step of a plan is in flight. */
  lemma AtMostOneInFlight(store: Store, p: string, c: string, d: string)
    requires Sound(store) && p in store
    requires c in store[p].children && d in store[p].children && c in store && d in store
    requires InFlight(store[c]) && InFlight(store[d])
    ensures c == d
  {
    assert InOrder(store, p);
    var ids := store[p].children;
    var i :| 0 <= i < |ids| && ids[i] == c;
    var j :| 0 <= j < |ids| && ids[j] == d;
  }

  // ---------------------------------------------------------------------------------------------
  // Changes that keep it
  // ---------------------------------------------------------------------------------------------

  /** The record stays a good one with the same children and more evidence. */
  ghost predicate Grown(g: Goal, g': Goal) {
    g'.id == g.id && g'.children == g.children && WellFormed(g') && g.evidence <= g'.evidence
  }

  /** The goal does not take off, does not come back, and is not a draft again. */
  predicate Calm(g: Goal, g': Goal) {
    && (InFlight(g') ==> InFlight(g))
    && (!IsOpen(g) ==> !IsOpen(g'))
    && (g'.status == Draft ==> g.status == Draft)
  }

  lemma CalmKeepsSound(store: Store, store': Store)
    requires Sound(store) && store'.Keys == store.Keys
    requires forall k :: k in store ==> Grown(store[k], store'[k])
    requires forall k :: k in store && IsChild(store, k) ==> Calm(store[k], store'[k])
    ensures Sound(store')
  {
    forall p | p in store' ensures InOrder(store', p) {
      assert InOrder(store, p);
      var ids := store[p].children;
      forall i, j | 0 <= i < j < |ids| && ids[i] in store && ids[j] in store && InFlight(store'[ids[j]])
        ensures !IsOpen(store'[ids[i]])
      {
        assert IsChild(store, ids[i]) && IsChild(store, ids[j]);
      }
    }
  }

  /** The transition a roll-up makes is never refused. */
  lemma RollUpMoves(g: Goal)
    ensures var r := RollUp(g);
      if IsActiveLeaf(g) && IsGoalComplete(g)
      then r == g.(status := Done, evidence := g.evidence + [VERIFIED])
      else r == g
  {}

  /** Nor is the one an escalation makes. */
  lemma EscalationMoves(g: Goal, d: ReplanDecision)
    requires IsActiveLeaf(g) && d.Escalate?
    ensures Decided(g, d) == g.(status := AwaitingApproval, evidence := g.evidence + [Evidence(STUCK, d.reason, None)])
  {}

  lemma DecidedIsCalm(g: Goal, d: ReplanDecision)
    requires WellFormed(g) && IsActiveLeaf(g)
    ensures Grown(g, Decided(g, d)) && Calm(g, Decided(g, d))
  {
    match d {
      case Nothing =>
      case Retry(unlink, _, reason) => RetryKeepsWellFormed(g, unlink, reason);
      case Escalate(_, _) => EscalationMoves(g, d);
    }
  }

  lemma ClosedIsCalm(g: Goal)
    requires WellFormed(g) && IsOpen(g)
    ensures var r := Moved(g, g.AddEvidence(VERIFIED), Done); Grown(g, r) && Calm(g, r)
  {}

  lemma UnchangedIsCalm(g: Goal)
    requires WellFormed(g)
    ensures Grown(g, g) && Calm(g, g)
  {}

  lemma RollUpIsCalm(g: Goal)
    requires WellFormed(g)
    ensures Grown(g, RollUp(g)) && Calm(g, RollUp(g))
  {
    if IsActiveLeaf(g) && IsGoalComplete(g) { ClosedIsCalm(g); } else { UnchangedIsCalm(g); }
  }

  lemma SettleIsCalm(g: Goal, maxAttempts: int)
    requires WellFormed(g)
    ensures Grown(g, Settle(g, maxAttempts)) && Calm(g, Settle(g, maxAttempts))
  {
    if IsActiveLeaf(g) { DecidedIsCalm(g, ReplanOf(g, maxAttempts)); }
  }

  lemma SettledIsCalm(g: Goal, maxAttempts: int)
    requires WellFormed(g)
    ensures var r := Settle(RollUp(g), maxAttempts); Grown(g, r) && Calm(g, r)
  {
    RollUpIsCalm(g);
    SettleIsCalm(RollUp(g), maxAttempts);
  }

  lemma {:induction false} UnlinkAllKeepsWellFormed(g: Goal, pids: seq<string>)
    requires WellFormed(g)
    ensures WellFormed(UnlinkAll(g, pids))
    decreases pids
  {
    if pids != [] {
      StepKeepsWellFormed(g, Unlink(pids[0]));
      UnlinkAllKeepsWellFormed(g.UnlinkPacket(pids[0]), pids[1..]);
    }
  }

  lemma RetryKeepsWellFormed(g: Goal, pids: seq<string>, reason: string)
    requires WellFormed(g)
    ensures Grown(g, ApplyRetry(g, pids, reason)) && ApplyRetry(g, pids, reason).status == g.status
  {
    UnlinkAllKeepsWellFormed(g, pids);
    UnlinkAllDrops(g, pids);
  }

  /** After its turn no active leaf is left stuck: it was retried, and then is not stuck, or it awaits
      the operator. */
  lemma NothingIsLeftStuck(g: Goal, maxAttempts: int)
    ensures IsActiveLeaf(Settle(g, maxAttempts)) ==> !IsStuck(Settle(g, maxAttempts))
  {
    if IsActiveLeaf(g) {
      var d := ReplanOf(g, maxAttempts);
      ExhaustedStuckEscalates(g, maxAttempts);
      match d {
        case Nothing =>
        case Retry(_, _, _) => RetryClears(g, maxAttempts);
        case Escalate(_, _) => EscalationMoves(g, d);
      }
    }
  }

  // ---------------------------------------------------------------------------------------------
  // Driving a plan
  // ---------------------------------------------------------------------------------------------

  lemma {:induction false} ByIdOfKids(ids: seq<string>, store: Store)
    requires forall k :: k in store ==> store[k].id == k
    ensures forall k :: k in ById(Kids(ids, store)) <==> k in ids && k in store
    ensures forall k :: k in ById(Kids(ids, store)) ==> ById(Kids(ids, store))[k] == store[k]
  {
    ByIdMembers(Kids(ids, store));
    KidsMembers(ids, store);
    forall k | k in ById(Kids(ids, store)) ensures ById(Kids(ids, store))[k] == store[k] {
      assert ById(Kids(ids, store))[k] in Kids(ids, store);
    }
    forall k | k in ids && k in store ensures k in ById(Kids(ids, store)) {
      assert store[k] in Kids(ids, store);
    }
  }

  lemma {:induction false} ByIdMembers(gs: seq<Goal>)
    ensures forall k :: k in ById(gs) ==> ById(gs)[k] in gs && ById(gs)[k].id == k
    ensures forall g :: g in gs ==> g.id in ById(gs)
  {
    if gs != [] {
      assert gs == gs[..|gs| - 1] + [gs[|gs| - 1]];
      ByIdMembers(gs[..|gs| - 1]);
    }
  }

  lemma {:induction false} KidsMembers(ids: seq<string>, store: Store)
    ensures forall g :: g in Kids(ids, store) <==> exists k :: k in ids && k in store && store[k] == g
  {
    if ids != [] {
      assert ids == [ids[0]] + ids[1..];
      KidsMembers(ids[1..], store);
    }
  }

  lemma {:induction false} KidsSame(ids: seq<string>, a: Store, b: Store)
    requires forall k :: k in ids ==> (k in a <==> k in b) && (k in a ==> a[k] == b[k])
    ensures Kids(ids, a) == Kids(ids, b)
  {
    if ids != [] {
      assert ids == [ids[0]] + ids[1..];
      KidsSame(ids[1..], a, b);
    }
  }

  lemma KidsHead(ids: seq<string>, store: Store)
    requires ids != []
    ensures var rest := Kids(ids[1..], store);
      var open := Select(Kids(ids, store), IsOpen);
      if ids[0] in store && IsOpen(store[ids[0]]) then open != [] && open[0] == store[ids[0]]
      else open == Select(rest, IsOpen)
  {
    var rest := Kids(ids[1..], store);
    if ids[0] in store {
      var kids := [store[ids[0]]] + rest;
      assert Kids(ids, store) == kids && kids[1..] == rest;
    } else {
      assert Kids(ids, store) == rest;
    }
  }

  /** The position of the first open child of a plan. */
  lemma {:induction false} FirstOpenPosition(ids: seq<string>, store: Store) returns (i: nat)
    requires Select(Kids(ids, store), IsOpen) != []
    ensures i < |ids| && ids[i] in store && store[ids[i]] == Select(Kids(ids, store), IsOpen)[0]
    ensures IsOpen(store[ids[i]])
    ensures forall j :: 0 <= j < i && ids[j] in store ==> !IsOpen(store[ids[j]])
  {
    KidsHead(ids, store);
    if ids[0] in store && IsOpen(store[ids[0]]) {
      i := 0;
    } else {
      var k := FirstOpenPosition(ids[1..], store);
      i := k + 1;
    }
  }

  /** The move asked for, in terms of the children of the plan that are open. */
  lemma NextMoveIs(store: Store, pid: string)
    requires Sound(store) && pid in store
    ensures var parent := store[pid];
      var open := Select(Kids(parent.children, store), IsOpen);
      var a := NextMove(store, pid);
      && (a.Complete? ==> IsOpen(parent) && Kids(parent.children, store) != [] && open == [])
      && (a.Advance? ==> open != [] && open[0].status == Draft && a.target == open[0].id)
  {
    var parent := store[pid];
    KidsResolveAgain(parent.children, store);
    PlanActionIs(parent, Kids(parent.children, store));
  }

  lemma KidsResolveAgain(ids: seq<string>, store: Store)
    requires forall k :: k in store ==> store[k].id == k
    ensures Kids(ids, ById(Kids(ids, store))) == Kids(ids, store)
  {
    ByIdOfKids(ids, store);
    KidsSame(ids, ById(Kids(ids, store)), store);
  }

  /** The next draft of a plan: all earlier steps are over. */
  ghost predicate NextDraft(store: Store, pid: string, i: nat)
    requires pid in store
  {
    var ids := store[pid].children;
    && i < |ids| && ids[i] in store && store[ids[i]].status == Draft
    && (forall j :: 0 <= j < i && ids[j] in store ==> !IsOpen(store[ids[j]]))
  }

  lemma AdvanceTargets(store: Store, pid: string) returns (i: nat)
    requires Sound(store) && pid in store && NextMove(store, pid).Advance?
    ensures NextDraft(store, pid, i) && store[pid].children[i] == NextMove(store, pid).target
  {
    NextMoveIs(store, pid);
    i := FirstOpenPosition(store[pid].children, store);
  }

  function DraftIds(store: Store): set<string> {
    set k | k in store && store[k].status == Draft
  }

  /** Activating a draft is always legal and uses it up. */
  lemma ActivatingUsesDraft(store: Store, pid: string, t: string)
    requires pid in store && t in store && store[t].status == Draft
    ensures var r := Driven(store, pid, Advance(t));
      r == store[t := store[t].(status := Active)] && DraftIds(r) == DraftIds(store) - {t} && t in DraftIds(store)
  {}

  /** A child sits at one place of one plan. */
  lemma OnePlace(store: Store, p: string, q: string, i: nat, j: nat)
    requires Sound(store) && p in store && q in store && i < |store[p].children| && j < |store[q].children|
    requires store[p].children[i] == store[q].children[j]
    ensures p == q && i == j
  {
    var c := store[p].children[i];
    assert c in store[p].children && c in store[q].children;
    assert WellFormed(store[p]);
  }

  lemma ActivatedInOrder(store: Store, pid: string, n: nat, p: string)
    requires Sound(store) && pid in store && NextDraft(store, pid, n) && p in store
    ensures var t := store[pid].children[n]; InOrder(store[t := store[t].(status := Active)], p)
  {
    var t := store[pid].children[n];
    var store' := store[t := store[t].(status := Active)];
    assert InOrder(store, p);
    var ids := store[p].children;
    assert store'[p].children == ids;
    forall i, j | 0 <= i < j < |ids| && ids[i] in store && ids[j] in store && InFlight(store'[ids[j]])
      ensures !IsOpen(store'[ids[i]])
    {
      if ids[j] == t { OnePlace(store, p, pid, j, n); }
      if ids[i] == t { OnePlace(store, p, pid, i, n); }
    }
  }

  lemma ActivatingKeepsSound(store: Store, pid: string, n: nat)
    requires Sound(store) && pid in store && NextDraft(store, pid, n)
    ensures Sound(Driven(store, pid, Advance(store[pid].children[n])))
  {
    var t := store[pid].children[n];
    ActivatingUsesDraft(store, pid, t);
    var store' := store[t := store[t].(status := Active)];
    assert WellFormed(store[t]) && WellFormed(store'[t]);
    forall p | p in store' ensures InOrder(store', p) { ActivatedInOrder(store, pid, n, p); }
    forall p | p in store ensures store'[p].children == store[p].children {}
  }

  /** Closing an active parent is never refused. */
  lemma ClosingIsLegal(store: Store, pid: string, t: string)
    requires pid in store && store[pid].status == Active
    ensures Driven(store, pid, Complete(t))
      == store[pid := store[pid].(status := Done, evidence := store[pid].evidence + [VERIFIED])]
  {}

  /** A plan is closed only when some step of it resolves, and each that does is done or abandoned. */
  lemma CompleteMeansOver(store: Store, pid: string)
    requires Sound(store) && pid in store && NextMove(store, pid).Complete?
    ensures StepsOver(store, store[pid])
  {
    NextMoveIs(store, pid);
    var ids := store[pid].children;
    NoOpenKids(ids, store);
    KidsMembers(ids, store);
    assert Kids(ids, store)[0] in Kids(ids, store);
  }

  lemma NoOpenKids(ids: seq<string>, store: Store)
    requires Select(Kids(ids, store), IsOpen) == []
    ensures forall c :: c in ids && c in store ==> !IsOpen(store[c])
  {
    KidsMembers(ids, store);
    forall c | c in ids && c in store ensures !IsOpen(store[c]) {
      assert store[c] in Kids(ids, store);
    }
  }

  lemma ClosingKeepsSound(store: Store, pid: string, target: string)
    requires Sound(store) && pid in store && IsOpen(store[pid])
    ensures var r := Driven(store, pid, Complete(target)); Sound(r) && DraftIds(r) <= DraftIds(store)
  {
    var store' := Driven(store, pid, Complete(target));
    forall k | k in store ensures Grown(store[k], store'[k]) && Calm(store[k], store'[k]) {
      if k == pid { ClosedIsCalm(store[k]); } else { UnchangedIsCalm(store[k]); }
    }
    CalmKeepsSound(store, store');
  }

  lemma DriveKeepsSound(store: Store, pid: string)
    requires Sound(store) && pid in store
    ensures Sound(Drive(store, pid)) && DraftIds(Drive(store, pid)) <= DraftIds(store)
  {
    var a := NextMove(store, pid);
    match a {
      case Advance(t) =>
        var i := AdvanceTargets(store, pid);
        ActivatingKeepsSound(store, pid, i);
        ActivatingUsesDraft(store, pid, t);
      case Complete(t) =>
        NextMoveIs(store, pid);
        ClosingKeepsSound(store, pid, t);
      case _ =>
    }
  }

  lemma {:induction false} DriveAllKeepsSound(store: Store, pids: seq<string>)
    requires Sound(store) && forall p :: p in pids ==> p in store
    ensures Sound(DriveAll(store, pids)) && DraftIds(DriveAll(store, pids)) <= DraftIds(store)
    decreases pids
  {
    if pids != [] {
      DriveKeepsSound(store, pids[0]);
      DriveAllKeepsSound(Drive(store, pids[0]), pids[1..]);
    }
  }

  lemma SettleAllKeepsSound(store: Store, maxAttempts: int)
    requires Sound(store)
    ensures var r := SettleAll(store, maxAttempts); Sound(r) && DraftIds(r) <= DraftIds(store)
  {
    var settled := SettleAll(store, maxAttempts);
    forall k | k in store ensures Grown(store[k], settled[k]) && Calm(store[k], settled[k]) {
      SettledIsCalm(store[k], maxAttempts);
    }
    CalmKeepsSound(store, settled);
  }

  /** A tick keeps every plan in order, whatever the store and the bounds, and makes no new draft. */
  lemma TickKeepsSound(store: Store, order: seq<string>, maxGoals: int, maxAttempts: int)
    requires Sound(store) && forall k :: k in order ==> k in store
    ensures var r := Ticked(store, order, maxGoals, maxAttempts); Sound(r) && DraftIds(r) <= DraftIds(store)
  {
    var settled := SettleAll(store, maxAttempts);
    SettleAllKeepsSound(store, maxAttempts);
    DriveAllKeepsSound(settled, Upto(ActiveParents(order, store), maxGoals));
  }

  // ---------------------------------------------------------------------------------------------
  // No fake green
  // ---------------------------------------------------------------------------------------------

  /** Some step of the plan is in the store, and each that is has been done or abandoned. */
  ghost predicate StepsOver(store: Store, g: Goal) {
    && (exists c :: c in g.children && c in store)
    && (forall c :: c in g.children && c in store ==> !IsOpen(store[c]))
  }

  lemma AdvanceOpens(store: Store, pid: string, t: string, k: string)
    requires pid in store && k in store
    ensures var r := Driven(store, pid, Advance(t));
      && r[k].children == store[k].children
      && (IsOpen(r[k]) <==> IsOpen(store[k])) && (!IsOpen(store[k]) ==> r[k] == store[k])
  {}

  lemma CompleteTouchesOnlyParent(store: Store, pid: string, t: string, k: string)
    requires pid in store && k in store && IsOpen(store[pid])
    ensures var r := Driven(store, pid, Complete(t));
      && r[k].children == store[k].children
      && (!IsOpen(store[k]) || k != pid ==> r[k] == store[k])
      && (!IsOpen(r[pid]) ==> r[pid].status == Done)
  {}

  /** A drive leaves closed goals alone and closes only its own parent, whose steps are all over. */
  lemma DriveCloses(store: Store, pid: string, k: string)
    requires Sound(store) && pid in store && k in store
    ensures var r := Drive(store, pid);
      && (!IsOpen(store[k]) ==> r[k] == store[k])
      && r[k].children == store[k].children
      && (IsOpen(store[k]) && !IsOpen(r[k]) ==> r[k].status == Done && StepsOver(store, store[k]))
  {
    match NextMove(store, pid) {
      case Advance(t) =>
        AdvanceOpens(store, pid, t, k);
      case Complete(t) =>
        NextMoveIs(store, pid);
        CompleteMeansOver(store, pid);
        CompleteTouchesOnlyParent(store, pid, t, k);
      case _ =>
    }
  }

  lemma {:induction false} DriveAllCloses(store: Store, pids: seq<string>, k: string)
    requires Sound(store) && k in store && forall p :: p in pids ==> p in store
    ensures var r := DriveAll(store, pids);
      && (!IsOpen(store[k]) ==> r[k] == store[k])
      && r[k].children == store[k].children
      && (IsOpen(store[k]) && r[k].status == Done ==> StepsOver(r, r[k]))
    decreases pids
  {
    if pids != [] {
      var s := Drive(store, pids[0]);
      var r := DriveAll(store, pids);
      DriveKeepsSound(store, pids[0]);
      DriveCloses(store, pids[0], k);
      DriveAllCloses(s, pids[1..], k);
      if IsOpen(store[k]) && !IsOpen(s[k]) {
        forall c | c in r[k].children && c in r ensures !IsOpen(r[c]) {
          DriveCloses(store, pids[0], c);
          DriveAllCloses(s, pids[1..], c);
        }
      }
    }
  }

  /** What a tick marks done is done: a leaf whose every counted packet ran, with a verification on
      record, or a plan with steps that resolve, all of them done or abandoned. */
  lemma TickClosesOnlyFinished(store: Store, order: seq<string>, maxGoals: int, maxAttempts: int, k: string)
    requires Sound(store) && k in store && forall p :: p in order ==> p in store
    ensures var r := Ticked(store, order, maxGoals, maxAttempts);
      store[k].status != Done && r[k].status == Done ==>
        (store[k].children == [] && IsGoalComplete(store[k])) || StepsOver(r, store[k])
  {
    var settled := SettleAll(store, maxAttempts);
    SettleAllKeepsSound(store, maxAttempts);
    SettledIsCalm(store[k], maxAttempts);
    DriveAllCloses(settled, Upto(ActiveParents(order, store), maxGoals), k);
    LeafClosesOnlyComplete(store[k], maxAttempts);
  }

  /** Closing a plan does not ask about packets of its own: the closed plan is complete by the packet
      accounting exactly when it has proposed packets and all of them ran. */
  lemma ClosedPlanCompleteIff(store: Store, pid: string)
    requires Sound(store) && pid in store && store[pid].status == Active && NextMove(store, pid).Complete?
    ensures var g, r := store[pid], Drive(store, pid)[pid];
      && r.status == Done
      && (IsGoalComplete(r) <==> Proposed(g) != {} && Proposed(g) <= Refs(g, EXECUTION))
  {
    var g, r := store[pid], Drive(store, pid)[pid];
    ClosingIsLegal(store, pid, NextMove(store, pid).target);
    CompleteIff(r);
    AddedEvidenceRefs(g, VERIFIED, PROPOSAL);
    AddedEvidenceRefs(g, VERIFIED, EXECUTION);
    assert r.evidence == g.AddEvidence(VERIFIED).evidence;
    assert VERIFIED in r.evidence;
  }

  /** An active plan whose one step was abandoned, with a packet of its own that never ran. */
  function UnfinishedPlan(): Store {
    map["a" := Goal("a", "t", "", Active, None, None, ["b"], ["p"], [Evidence(PROPOSAL, "", Some("p"))]),
        "b" := Goal("b", "t", "", Abandoned, None, Some("a"), [], [], [])]
  }

  lemma UnfinishedPlanSound()
    ensures Sound(UnfinishedPlan())
  {
    var store := UnfinishedPlan();
    forall p | p in store ensures InOrder(store, p) && WellFormed(store[p]) {
      assert |store[p].children| <= 1;
    }
  }

  lemma UnfinishedPlanMove()
    ensures NextMove(UnfinishedPlan(), "a") == Complete("a")
  {
    var store := UnfinishedPlan();
    var b := store["b"];
    assert Kids(["b"][1..], store) == [] && Kids(["b"], store) == [b];
    UnfinishedPlanSound();
    KidsResolveAgain(["b"], store);
    assert Scan([b][1..], "a") == Complete("a");
    assert NextMove(store, "a") == PlanAction(store["a"], [b]);
  }

  lemma UnfinishedPlanPending()
    ensures var g := UnfinishedPlan()["a"]; g.status == Active && "p" in Proposed(g) && "p" !in Refs(g, EXECUTION)
  {
    var g := UnfinishedPlan()["a"];
    var e := Evidence(PROPOSAL, "", Some("p"));
    assert g.evidence == [e] && e in g.evidence;
    assert "p" in Refs(g, PROPOSAL);
  }

  lemma ClosedWithPending(store: Store, pid: string, packet: string)
    requires Sound(store) && pid in store && store[pid].status == Active && NextMove(store, pid).Complete?
    requires packet in Proposed(store[pid]) && packet !in Refs(store[pid], EXECUTION)
    ensures var r := Drive(store, pid)[pid]; r.status == Done && !IsGoalComplete(r)
  {
    ClosedPlanCompleteIff(store, pid);
  }

  /** It is closed all the same, with the packet still pending. */
  lemma UnfinishedPlanIsClosed()
    ensures var store := UnfinishedPlan();
      Sound(store) && Drive(store, "a")["a"].status == Done && !IsGoalComplete(Drive(store, "a")["a"])
  {
    var store := UnfinishedPlan();
    UnfinishedPlanSound();
    UnfinishedPlanMove();
    UnfinishedPlanPending();
    ClosedWithPending(store, "a", "p");
  }

  lemma LeafClosesOnlyComplete(g: Goal, maxAttempts: int)
    ensures g.status != Done && Settle(RollUp(g), maxAttempts).status == Done ==> g.children == [] && IsGoalComplete(g)
    ensures g.status == Abandoned ==> Settle(RollUp(g), maxAttempts) == g
  {
    RollUpMoves(g);
    var u := RollUp(g);
    if IsActiveLeaf(u) {
      match ReplanOf(u, maxAttempts) {
        case Nothing =>
        case Retry(unlink, _, reason) => UnlinkAllDrops(u, unlink);
        case Escalate(_, _) => EscalationMoves(u, ReplanOf(u, maxAttempts));
      }
    }
  }

  // ---------------------------------------------------------------------------------------------
  // Runs
  // ---------------------------------------------------------------------------------------------

  /** What can happen to a store: a tick, an operation on one goal by the operator, a discovery or the
      execution bridge, the decomposition of a goal into drafts, and the saving of a new goal or the
      deletion of one. */
  datatype Happening =
    | Tick(order: seq<string>, maxGoals: int, maxAttempts: int)
    | Act(id: string, op: Op)
    | Decompose(id: string, steps: seq<PlanStep>, newId: nat -> string)
    | Save(goal: Goal)
    | Delete(id: string)

  /** The ids of a decomposition are new to the store. */
  ghost predicate NewToStore(store: Store, newId: nat -> string, n: nat) {
    forall i :: 0 <= i < n ==> newId(i) !in store && !IsChild(store, newId(i))
  }

  /** Steps of a plan are activated by ticks only and are not reopened; children come from
      decompositions only, with ids that are new. A new goal has no children yet and is no plan's step. */
  ghost predicate Allowed(store: Store, h: Happening) {
    match h
    case Tick(order, _, _) => forall k :: k in order ==> k in store
    case Act(id, op) =>
      && id in store && !op.Adopt?
      && (op.Move? && IsChild(store, id) ==> IsOpen(store[id]) && !(store[id].status == Draft && op.dst == Active))
    case Decompose(id, steps, newId) =>
      id in store && FreshIds(store[id], newId, |steps|) && NewToStore(store, newId, |steps|)
    case Save(g) => g.id !in store && !IsChild(store, g.id) && g.children == [] && WellFormed(g)
    case Delete(id) => id in store
  }

  function Planned(parent: Goal, steps: seq<PlanStep>, newId: nat -> string): Goal {
    parent.(children := Adopted(parent.children, Ids(newId, |steps|)),
            evidence := parent.evidence + [Evidence(PLAN, "", None)])
  }

  /** Anything not allowed does not happen. */
  ghost function After(store: Store, h: Happening): Store {
    if !Allowed(store, h) then store
    else
      match h
      case Tick(order, maxGoals, maxAttempts) => Ticked(store, order, maxGoals, maxAttempts)
      case Act(id, op) => store[id := Step(store[id], op)]
      case Decompose(id, steps, newId) =>
        store[id := Planned(store[id], steps, newId)] + ById(Drafts(store[id], steps, newId, |steps|))
      case Save(g) => store[g.id := g]
      case Delete(id) => store - {id}
  }

  ghost function AfterAll(store: Store, hs: seq<Happening>): Store
    decreases hs
  {
    if hs == [] then store else AfterAll(After(store, hs[0]), hs[1..])
  }

  lemma ActKeepsSound(store: Store, id: string, op: Op)
    requires Sound(store) && Allowed(store, Act(id, op))
    ensures Sound(After(store, Act(id, op)))
  {
    var store' := store[id := Step(store[id], op)];
    StepKeepsWellFormed(store[id], op);
    StatusChangesAreLegal(store[id], op);
    forall k | k in store
      ensures Grown(store[k], store'[k]) && (IsChild(store, k) ==> Calm(store[k], store'[k]))
    {
      if k != id { UnchangedIsCalm(store[k]); }
    }
    CalmKeepsSound(store, store');
  }

  lemma PlannedIsWellFormed(parent: Goal, steps: seq<PlanStep>, newId: nat -> string)
    requires WellFormed(parent) && FreshIds(parent, newId, |steps|)
    ensures var p := Planned(parent, steps, newId);
      && WellFormed(p) && p.id == parent.id && p.status == parent.status
      && p.children == parent.children + Ids(newId, |steps|)
  {
    FreshIdsAllLinked(parent, newId, |steps|);
    var ids := Ids(newId, |steps|);
    var all := parent.children + ids;
    forall i, j | 0 <= i < j < |all| ensures all[i] != all[j] {
      if i < |parent.children| <= j { assert all[i] in parent.children && all[j] == newId(j - |parent.children|); }
    }
  }

  /** The drafts a decomposition adds to the store. */
  lemma DraftsById(parent: Goal, steps: seq<PlanStep>, newId: nat -> string, k: string)
    ensures var added := ById(Drafts(parent, steps, newId, |steps|));
      && (k in added <==> k in Ids(newId, |steps|))
      && (k in added ==>
            added[k].id == k && added[k].status == Draft && added[k].children == [] && WellFormed(added[k]))
  {
    var gs := Drafts(parent, steps, newId, |steps|);
    ByIdMembers(gs);
    if k in ById(gs) {
      var i :| 0 <= i < |gs| && gs[i] == ById(gs)[k];
      DraftsAt(parent, steps, newId, |steps|, i);
      assert Ids(newId, |steps|)[i] == k;
    }
    if k in Ids(newId, |steps|) {
      var i :| 0 <= i < |steps| && newId(i) == k;
      DraftsAt(parent, steps, newId, |steps|, i);
      assert gs[i] in gs;
    }
  }

  /** One goal of the store after a decomposition. */
  lemma DecomposedGoal(store: Store, id: string, steps: seq<PlanStep>, newId: nat -> string, k: string)
    requires Sound(store) && Allowed(store, Decompose(id, steps, newId))
    ensures var r := After(store, Decompose(id, steps, newId));
      var ids := Ids(newId, |steps|);
      && (k in r <==> k in store || k in ids)
      && (k in store ==> k !in ids)
      && (k in r ==> r[k].id == k && WellFormed(r[k]))
      && (k in ids ==> r[k].status == Draft && r[k].children == [])
      && (k in store ==> r[k].status == store[k].status
                         && r[k].children == if k == id then store[id].children + ids else store[k].children)
  {
    PlannedIsWellFormed(store[id], steps, newId);
    DraftsById(store[id], steps, newId, k);
  }

  /** A plan stays in order when only drafts are added at its end. */
  lemma AddingDraftsKeepsOrder(store: Store, r: Store, p: string, added: seq<string>)
    requires p in store && p in r && InOrder(store, p)
    requires r[p].children == store[p].children + added
    requires forall k :: k in added && k in r ==> r[k].status == Draft
    requires forall k :: k in store[p].children && k in r ==> k in store && r[k].status == store[k].status
    ensures InOrder(r, p)
  {
    var before, ids := store[p].children, r[p].children;
    assert forall j :: |before| <= j < |ids| ==> ids[j] in added;
    forall i, j | 0 <= i < j < |ids| && ids[i] in r && ids[j] in r && InFlight(r[ids[j]])
      ensures !IsOpen(r[ids[i]])
    {
      if j < |before| { assert ids[i] == before[i] && ids[j] == before[j]; }
    }
  }

  lemma DecomposedChild(store: Store, id: string, steps: seq<PlanStep>, newId: nat -> string, p: string, k: string)
    requires Sound(store) && Allowed(store, Decompose(id, steps, newId)) && p in store && k in store[p].children
    requires k in After(store, Decompose(id, steps, newId))
    ensures k in store && After(store, Decompose(id, steps, newId))[k].status == store[k].status
  {
    assert IsChild(store, k);
    DecomposedGoal(store, id, steps, newId, k);
  }

  lemma DecomposedInOrder(store: Store, id: string, steps: seq<PlanStep>, newId: nat -> string, p: string)
    requires Sound(store) && Allowed(store, Decompose(id, steps, newId)) && p in store
    ensures p in After(store, Decompose(id, steps, newId)) && InOrder(After(store, Decompose(id, steps, newId)), p)
  {
    var r := After(store, Decompose(id, steps, newId));
    var added := if p == id then Ids(newId, |steps|) else [];
    DecomposedGoal(store, id, steps, newId, p);
    forall k | k in added && k in r ensures r[k].status == Draft { DecomposedGoal(store, id, steps, newId, k); }
    forall k | k in store[p].children && k in r ensures k in store && r[k].status == store[k].status {
      DecomposedChild(store, id, steps, newId, p, k);
    }
    AddingDraftsKeepsOrder(store, r, p, added);
  }

  /** Where a child of a plan comes from after a decomposition. */
  lemma DecomposedParent(store: Store, id: string, steps: seq<PlanStep>, newId: nat -> string, p: string, c: string)
    requires Sound(store) && Allowed(store, Decompose(id, steps, newId))
    requires var r := After(store, Decompose(id, steps, newId)); p in r && c in r[p].children
    ensures p in store
    ensures if c in Ids(newId, |steps|) then p == id else c in store[p].children
  {
    DecomposedGoal(store, id, steps, newId, p);
    if c in Ids(newId, |steps|) && c in store[p].children { assert IsChild(store, c); }
  }

  lemma DecomposedOneParent(store: Store, id: string, steps: seq<PlanStep>, newId: nat -> string, p: string, q: string,
                            c: string)
    requires Sound(store) && Allowed(store, Decompose(id, steps, newId))
    requires var r := After(store, Decompose(id, steps, newId));
      p in r && q in r && c in r[p].children && c in r[q].children
    ensures p == q
  {
    DecomposedParent(store, id, steps, newId, p, c);
    DecomposedParent(store, id, steps, newId, q, c);
  }

  lemma DecomposeKeepsSound(store: Store, id: string, steps: seq<PlanStep>, newId: nat -> string)
    requires Sound(store) && Allowed(store, Decompose(id, steps, newId))
    ensures Sound(After(store, Decompose(id, steps, newId)))
  {
    var r := After(store, Decompose(id, steps, newId));
    forall k | k in r ensures r[k].id == k && WellFormed(r[k]) && InOrder(r, k) {
      DecomposedGoal(store, id, steps, newId, k);
      if k in store { DecomposedInOrder(store, id, steps, newId, k); }
    }
    forall p, q, c | p in r && q in r && c in r[p].children && c in r[q].children ensures p == q {
      DecomposedOneParent(store, id, steps, newId, p, q, c);
    }
  }

  lemma SaveKeepsSound(store: Store, g: Goal)
    requires Sound(store) && Allowed(store, Save(g))
    ensures Sound(After(store, Save(g)))
  {
    var r := After(store, Save(g));
    assert r == store[g.id := g];
    forall p | p in r ensures InOrder(r, p) {
      if p != g.id {
        assert InOrder(store, p);
        assert g.id !in r[p].children;
      }
    }
    forall p | p in r && p != g.id ensures r[p] == store[p] {}
  }

  lemma DeleteKeepsSound(store: Store, id: string)
    requires Sound(store) && Allowed(store, Delete(id))
    ensures Sound(After(store, Delete(id)))
  {
    var r := After(store, Delete(id));
    forall p | p in r ensures p in store && r[p] == store[p] {}
    forall p | p in r ensures InOrder(r, p) { assert InOrder(store, p); }
  }

  /** Every run keeps every plan in order: starting from a sound store, whatever sequence of ticks,
      operations, decompositions, new goals and deletions follows, at most one step of each plan is ever in
      flight and each step in flight has only finished steps before it. The empty store is sound. */
  lemma {:induction false} RunKeepsPlansInOrder(store: Store, hs: seq<Happening>)
    requires Sound(store)
    ensures Sound(AfterAll(store, hs))
    decreases hs
  {
    if hs != [] {
      if Allowed(store, hs[0]) {
        match hs[0] {
          case Tick(order, maxGoals, maxAttempts) => TickKeepsSound(store, order, maxGoals, maxAttempts);
          case Act(id, op) => ActKeepsSound(store, id, op);
          case Decompose(id, steps, newId) => DecomposeKeepsSound(store, id, steps, newId);
          case Save(g) => SaveKeepsSound(store, g);
          case Delete(id) => DeleteKeepsSound(store, id);
        }
      }
      RunKeepsPlansInOrder(After(store, hs[0]), hs[1..]);
    }
  }

  /** Around step `n` of a plan: every earlier step is over and no later one is in flight. */
  ghost predicate RoomToActivate(store: Store, p: string, n: nat)
    requires p in store
  {
    var ids := store[p].children;
    && (forall i :: 0 <= i < n && i < |ids| && ids[i] in store ==> !IsOpen(store[ids[i]]))
    && (forall j :: n < j < |ids| && ids[j] in store ==> !InFlight(store[ids[j]]))
  }

  function Activated(store: Store, t: string): Store
    requires t in store
  {
    store[t := store[t].(status := Active)]
  }

  lemma ActivatedAtInOrder(store: Store, p: string, n: nat, q: string)
    requires Sound(store) && p in store && n < |store[p].children| && store[p].children[n] in store && q in store
    requires RoomToActivate(store, p, n)
    ensures InOrder(Activated(store, store[p].children[n]), q)
  {
    var t := store[p].children[n];
    var r := Activated(store, t);
    assert InOrder(store, q);
    var ids := store[q].children;
    assert r[q].children == ids;
    forall i, j | 0 <= i < j < |ids| && ids[i] in store && ids[j] in store && InFlight(r[ids[j]])
      ensures !IsOpen(r[ids[i]])
    {
      if ids[j] == t { OnePlace(store, q, p, j, n); }
      if ids[i] == t { OnePlace(store, q, p, i, n); }
    }
  }

  lemma OrderLeavesRoom(store: Store, p: string, n: nat)
    requires Sound(store) && p in store && n < |store[p].children| && store[p].children[n] in store
    requires p in Activated(store, store[p].children[n]) && InOrder(Activated(store, store[p].children[n]), p)
    ensures RoomToActivate(store, p, n)
  {
    var ids := store[p].children;
    var r := Activated(store, ids[n]);
    assert r[p].children == ids && WellFormed(store[p]);
    forall i | 0 <= i < n && ids[i] in store ensures !IsOpen(store[ids[i]]) {
      assert ids[i] != ids[n] && (InFlight(r[ids[n]]) ==> !IsOpen(r[ids[i]]));
    }
    forall j | n < j < |ids| && ids[j] in store ensures !InFlight(store[ids[j]]) {
      assert ids[j] != ids[n] && (InFlight(r[ids[j]]) ==> !IsOpen(r[ids[n]]));
    }
  }

  lemma ActivatedRecords(store: Store, t: string)
    requires Sound(store) && t in store
    ensures OneParent(Activated(store, t))
    ensures forall k :: k in store ==> Activated(store, t)[k].id == k && WellFormed(Activated(store, t)[k])
  {
    var r := Activated(store, t);
    forall k | k in store ensures r[k].children == store[k].children {}
    forall k | k in store ensures r[k].id == k && WellFormed(r[k]) {
      assert WellFormed(store[k]);
    }
  }

  /** Moving a step to active by hand, whether it opens a draft or reopens a finished step (the transition
      matrix allows both), keeps the plans in order exactly when every earlier step is over and no later
      one is in flight. */
  lemma ActivatingKeepsOrderIff(store: Store, p: string, n: nat)
    requires Sound(store) && p in store && n < |store[p].children| && store[p].children[n] in store
    requires !InFlight(store[store[p].children[n]])
    ensures var t := store[p].children[n];
      Sound(store[t := Step(store[t], Move(Active))]) <==> RoomToActivate(store, p, n)
  {
    var t := store[p].children[n];
    var r := Activated(store, t);
    StepKeepsWellFormed(store[t], Move(Active));
    assert store[t := Step(store[t], Move(Active))] == r;
    if Sound(r) {
      assert InOrder(r, p);
      OrderLeavesRoom(store, p, n);
    }
    if RoomToActivate(store, p, n) {
      forall q | q in r ensures InOrder(r, q) { ActivatedAtInOrder(store, p, n, q); }
      ActivatedRecords(store, t);
    }
  }
}
