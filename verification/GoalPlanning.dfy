/** Decomposition, evidence-derived packet accounting, progress, continuation and bounded replanning
    (packages/forgekit-goal/src/forgekit_goal/planning.py). */
module GoalPlanning {
  import opened GoalModel
  import opened Sequences
  import opened Text
  import opened Wrappers

  const PROPOSAL := "proposal"
  const EXECUTION := "execution"
  const VERIFICATION := "verification"
  const DECISION := "decision"
  const PLAN := "plan"
  const REPLANNED := "replan"
  const STUCK := "blocked"

  // ---------------------------------------------------------------------------------------------
  // Decomposition
  // ---------------------------------------------------------------------------------------------

  datatype PlanStep = PlanStep(title: string, intent: string)

  predicate HasTitle(s: PlanStep) { Strip(s.title) != "" }

  /** The ids the generator gives are usable: distinct, stripped, non-empty and new to the parent. */
  ghost predicate FreshIds(parent: Goal, newId: nat -> string, n: nat) {
    && (forall i :: 0 <= i < n ==>
          newId(i) != "" && Stripped(newId(i)) && newId(i) != parent.id && newId(i) !in parent.children)
    && (forall i, j :: 0 <= i < j < n ==> newId(i) != newId(j))
  }

  function Ids(newId: nat -> string, n: nat): (r: seq<string>)
    ensures |r| == n && forall i :: 0 <= i < n ==> r[i] == newId(i)
  {
    seq(n, i requires 0 <= i < n => newId(i))
  }

  /** A fresh draft of a step under its parent. */
  function DraftOf(parent: Goal, step: PlanStep, id: string): Goal {
    Goal(id, Strip(step.title), Strip(step.intent), Draft, parent.mode, Some(parent.id), [], [], [])
  }

  /** The drafts of the first `n` steps. */
  function Drafts(parent: Goal, kept: seq<PlanStep>, newId: nat -> string, n: nat): (r: seq<Goal>)
    requires n <= |kept|
    ensures |r| == n
  {
    if n == 0 then [] else Drafts(parent, kept, newId, n - 1) + [DraftOf(parent, kept[n - 1], newId(n - 1))]
  }

  lemma {:induction false} DraftsAt(parent: Goal, kept: seq<PlanStep>, newId: nat -> string, n: nat, i: nat)
    requires i < n <= |kept|
    ensures Drafts(parent, kept, newId, n)[i] == DraftOf(parent, kept[i], newId(i))
  {
    if i < n - 1 { DraftsAt(parent, kept, newId, n - 1, i); }
  }

  /** A child id the parent accepts. */
  predicate UsableId(parent: Goal, id: string) { Strip(id) != "" && Strip(id) != parent.id }

  ghost predicate AllUsable(parent: Goal, newId: nat -> string, n: nat) {
    forall i :: 0 <= i < n ==> UsableId(parent, newId(i))
  }

  lemma UsableNext(parent: Goal, newId: nat -> string, n: nat)
    requires AllUsable(parent, newId, n) && UsableId(parent, newId(n))
    ensures AllUsable(parent, newId, n + 1)
  {}

  predicate UnknownMode(g: Goal) { g.mode.Some? && g.mode.value !in KNOWN_MODES }

  /** The child list after linking `ids` one after the other; an id already there is not added. */
  function Adopted(children: seq<string>, ids: seq<string>): seq<string> {
    if ids == [] then children
    else
      var before := Adopted(children, ids[..|ids| - 1]);
      var c := Strip(ids[|ids| - 1]);
      if c in before then before else before + [c]
  }

  /** What a decomposition yields: one draft per titled step, all linked in order, and a plan record. */
  ghost predicate Decomposed(parent: Goal, kept: seq<PlanStep>, newId: nat -> string, parent': Goal,
                             children: seq<Goal>)
  {
    && children == Drafts(parent, kept, newId, |kept|)
    && parent' == parent.(children := Adopted(parent.children, Ids(newId, |kept|)),
                          evidence := parent.evidence + [Evidence(PLAN, "", None)])
  }

  lemma CreateGivesDraft(parent: Goal, step: PlanStep, id: string)
    requires HasTitle(step)
    ensures Create(step.title, step.intent, parent.mode, Some(parent.id), id)
      == if UnknownMode(parent) then Raised else Ok(DraftOf(parent, step, id))
  {}

  lemma LinkStep(parent: Goal, newId: nat -> string, i: nat)
    ensures var g := parent.(children := Adopted(parent.children, Ids(newId, i)));
      g.AddChild(newId(i)) == if UsableId(parent, newId(i))
        then Ok(parent.(children := Adopted(parent.children, Ids(newId, i + 1))))
        else Raised
  {
    assert Ids(newId, i + 1)[..i] == Ids(newId, i);
  }

  /** Breaks a parent into ordered draft children. `newId` gives the id of the i-th child. It raises
      when no step has a title, when the parent's mode is unknown, or when an id is blank or the
      parent's own. */
  method Decompose(parent: Goal, steps: seq<PlanStep>, newId: nat -> string) returns (r: Result<(Goal, seq<Goal>)>)
    ensures var kept := Select(steps, HasTitle);
      && (r == Raised <==> kept == [] || UnknownMode(parent) || !AllUsable(parent, newId, |kept|))
      && (r.Ok? ==> Decomposed(parent, kept, newId, r.value.0, r.value.1))
  {
    var kept := Select(steps, HasTitle);
    if kept == [] {
      return Raised;
    }
    var g := parent;
    var children: seq<Goal> := [];
    ghost var refused := UnknownMode(parent);
    for i := 0 to |kept|
      invariant i > 0 ==> !refused
      invariant AllUsable(parent, newId, i)
      invariant children == Drafts(parent, kept, newId, i)
      invariant g == parent.(children := Adopted(parent.children, Ids(newId, i)))
    {
      assert kept[i] in kept;
      CreateGivesDraft(parent, kept[i], newId(i));
      LinkStep(parent, newId, i);
      var child := Create(kept[i].title, kept[i].intent, parent.mode, Some(parent.id), newId(i));
      if child == Raised {
        return Raised;
      }
      children := children + [child.value];
      var linked := g.AddChild(child.value.id);
      if linked == Raised {
        assert !UsableId(parent, newId(i));
        return Raised;
      }
      UsableNext(parent, newId, i);
      g := linked.value;
    }
    return Ok((g.AddEvidence(Evidence(PLAN, "", None)), children));
  }

  lemma {:induction false} AdoptedMembers(children: seq<string>, ids: seq<string>)
    ensures children <= Adopted(children, ids)
    ensures forall c :: c in Adopted(children, ids) ==> c in children || exists id :: id in ids && c == Strip(id)
    ensures forall id :: id in ids ==> Strip(id) in Adopted(children, ids)
  {
    if ids != [] {
      assert ids == ids[..|ids| - 1] + [ids[|ids| - 1]];
      AdoptedMembers(children, ids[..|ids| - 1]);
    }
  }

  /** The drafts of a decomposition, step by step, and what it leaves of the parent. */
  lemma DecomposedChildren(parent: Goal, kept: seq<PlanStep>, newId: nat -> string, parent': Goal, cs: seq<Goal>,
                           i: nat)
    requires Decomposed(parent, kept, newId, parent', cs) && i < |kept|
    ensures |cs| == |kept|
      && cs[i].id == newId(i) && cs[i].status == Draft && cs[i].parentId == Some(parent.id)
      && cs[i].title == Strip(kept[i].title) && cs[i].intent == Strip(kept[i].intent) && cs[i].mode == parent.mode
      && cs[i].children == [] && cs[i].packets == [] && cs[i].evidence == []
    ensures parent'.evidence == parent.evidence + [Evidence("plan", "", None)]
      && parent' == parent.(children := parent'.children, evidence := parent'.evidence)
  {
    DraftsAt(parent, kept, newId, |kept|, i);
  }

  /** With usable new ids every child is linked exactly once, in step order. */
  lemma {:induction false} FreshIdsAllLinked(parent: Goal, newId: nat -> string, n: nat)
    requires FreshIds(parent, newId, n)
    ensures Adopted(parent.children, Ids(newId, n)) == parent.children + Ids(newId, n)
  {
    if n > 0 {
      var c := newId(n - 1);
      var earlier := Ids(newId, n - 1);
      FreshIdsAllLinked(parent, newId, n - 1);
      assert Ids(newId, n) == earlier + [c];
      AdoptedLast(parent.children, earlier, c);
      assert c !in earlier;
    }
  }

  lemma AdoptedLast(children: seq<string>, ids: seq<string>, c: string)
    requires Stripped(c)
    ensures var before := Adopted(children, ids);
      Adopted(children, ids + [c]) == if c in before then before else before + [c]
  {
    assert (ids + [c])[..|ids|] == ids;
  }

  // ---------------------------------------------------------------------------------------------
  // Packet accounting
  // ---------------------------------------------------------------------------------------------

  /** The packet ids that carry an evidence record of a kind. */
  function Refs(g: Goal, kind: string): set<string> {
    set e | e in g.evidence && e.kind == kind && e.ref.Some? && e.ref.value != "" :: e.ref.value
  }

  function Elements(s: seq<string>): (r: set<string>)
    ensures forall x :: x in r <==> x in s
  {
    set x | x in s
  }

  /** Linked packets that have a proposal. */
  function Proposed(g: Goal): set<string> { Refs(g, PROPOSAL) * Elements(g.packets) }

  function Executed(g: Goal): set<string> { Refs(g, EXECUTION) * Proposed(g) }

  function Refused(g: Goal): set<string> { Refs(g, DECISION) * Proposed(g) - Executed(g) }

  function Pending(g: Goal): set<string> { Proposed(g) - Executed(g) - Refused(g) }

  datatype Tally = Tally(total: nat, executed: nat, blocked: nat, pending: nat)

  function TallyPackets(g: Goal): Tally {
    Tally(|Proposed(g)|, |Executed(g)|, |Refused(g)|, |Pending(g)|)
  }

  function IsGoalComplete(g: Goal): bool {
    if g.status == Abandoned then false
    else
      var t := TallyPackets(g);
      t.total != 0 && (exists e :: e in g.evidence && e.kind == VERIFICATION) && t.pending == 0 && t.blocked == 0
  }

  /** The members of `s` that are in `keep`, in order. */
  function Only(s: seq<string>, keep: set<string>): (r: seq<string>)
    ensures forall x :: x in r <==> x in s && x in keep
  {
    if s == [] then []
    else
      assert s == [s[0]] + s[1..];
      (if s[0] in keep then [s[0]] else []) + Only(s[1..], keep)
  }

  function PendingPacketIds(g: Goal): seq<string> {
    Only(g.packets, Proposed(g) - (Refs(g, EXECUTION) + Refs(g, DECISION)))
  }

  function BlockedPacketIds(g: Goal): seq<string> {
    Only(g.packets, Proposed(g) * Refs(g, DECISION) - Refs(g, EXECUTION))
  }

  /** The first packet that is proposed and neither executed nor refused. */
  function NextPacket(proposedOrder: seq<string>, executed: set<string>, refused: set<string>): Option<string> {
    if proposedOrder == [] then None
    else if proposedOrder[0] !in executed && proposedOrder[0] !in refused then Some(proposedOrder[0])
    else NextPacket(proposedOrder[1..], executed, refused)
  }

  // ---------------------------------------------------------------------------------------------
  // Progress
  // ---------------------------------------------------------------------------------------------

  /** Goals by id; a later goal with the same id wins. */
  function ById(children: seq<Goal>): map<string, Goal> {
    if children == [] then map[]
    else ById(children[..|children| - 1])[children[|children| - 1].id := children[|children| - 1]]
  }

  /** The resolvable children in plan order; dangling ids are skipped. */
  function Kids(ids: seq<string>, resolved: map<string, Goal>): seq<Goal> {
    if ids == [] then []
    else (if ids[0] in resolved then [resolved[ids[0]]] else []) + Kids(ids[1..], resolved)
  }

  predicate IsDone(g: Goal) { g.status == Done }

  predicate IsBlocked(g: Goal) { g.status == Blocked }

  /** Neither done nor abandoned. */
  predicate IsOpen(g: Goal) { g.status != Done && g.status != Abandoned }

  predicate InFlight(g: Goal) { g.status in {Active, Blocked, AwaitingApproval} }

  datatype GoalProgress = GoalProgress(decomposed: bool, total: nat, done: nat, blocked: nat, pending: nat,
                                       ratio: real, complete: bool, next: Option<string>)

  function Ratio(done: nat, total: nat): real {
    if total == 0 then 0.0 else done as real / total as real
  }

  function Progress(g: Goal, children: seq<Goal>): GoalProgress {
    var kids := Kids(g.children, ById(children));
    if kids != [] then
      var pending := Select(kids, IsOpen);
      var done := |Select(kids, IsDone)|;
      GoalProgress(true, |kids|, done, |Select(kids, IsBlocked)|, |pending|, Ratio(done, |kids|), done == |kids|,
                   if pending != [] then Some(pending[0].id) else None)
    else
      var t := TallyPackets(g);
      var executed := Refs(g, EXECUTION);
      GoalProgress(false, t.total, t.executed, t.blocked, t.pending, Ratio(t.executed, t.total), IsGoalComplete(g),
                   NextPacket(Only(g.packets, Refs(g, PROPOSAL)), executed, Refs(g, DECISION) - executed))
  }

  // ---------------------------------------------------------------------------------------------
  // Continuation
  // ---------------------------------------------------------------------------------------------

  datatype Action =
    | Noop
    | Advance(target: string)
    | Wait(target: string)
    | Replan(target: string)
    | Complete(target: string)

  /** The move for the child under the cursor. */
  function ChildAction(c: Goal): Action {
    match c.status
    case Blocked => Replan(c.id)
    case AwaitingApproval => Wait(c.id)
    case Active =>
      var t := TallyPackets(c);
      if t.pending == 0 && t.blocked > 0 then Replan(c.id) else Wait(c.id)
    case _ => Advance(c.id)
  }

  function Scan(kids: seq<Goal>, parentId: string): Action {
    if kids == [] then Complete(parentId)
    else if IsOpen(kids[0]) then ChildAction(kids[0])
    else Scan(kids[1..], parentId)
  }

  /** The next move of a plan, from its resolved children. */
  function PlanAction(parent: Goal, kids: seq<Goal>): Action {
    if parent.children == [] || !IsOpen(parent) || kids == [] then Noop else Scan(kids, parent.id)
  }

  function ContinuationAction(parent: Goal, children: seq<Goal>): Action {
    PlanAction(parent, Kids(parent.children, ById(children)))
  }

  // ---------------------------------------------------------------------------------------------
  // Replanning
  // ---------------------------------------------------------------------------------------------

  datatype ReplanDecision =
    | Nothing
    | Retry(unlink: seq<string>, attempt: nat, reason: string)
    | Escalate(attempt: nat, reason: string)

  function IsStuck(g: Goal): bool {
    var t := TallyPackets(g);
    t.blocked > 0 && t.pending == 0 && !IsGoalComplete(g)
  }

  function Attempts(evidence: seq<Evidence>): nat {
    if evidence == [] then 0
    else (if evidence[|evidence| - 1].kind == REPLANNED then 1 else 0) + Attempts(evidence[..|evidence| - 1])
  }

  /** The latest refusal or escalation on record. */
  function BlockedReason(evidence: seq<Evidence>): Option<string> {
    if evidence == [] then None
    else
      var last := evidence[|evidence| - 1];
      if last.kind == DECISION || last.kind == STUCK then Some(last.summary)
      else BlockedReason(evidence[..|evidence| - 1])
  }

  function Reason(evidence: seq<Evidence>): string {
    match BlockedReason(evidence)
    case Some(r) => if r == "" then "gate-blocked (no recorded reason)" else r
    case None => "gate-blocked (no recorded reason)"
  }

  /** Retries while attempts are left, and escalates after. */
  function Decision(blocked: seq<string>, attempts: nat, maxAttempts: int, reason: string): ReplanDecision {
    if attempts < maxAttempts then Retry(blocked, attempts + 1, reason) else Escalate(attempts, reason)
  }

  function ReplanOf(g: Goal, maxAttempts: int): ReplanDecision {
    if !IsStuck(g) then Nothing
    else Decision(BlockedPacketIds(g), Attempts(g.evidence), maxAttempts, Reason(g.evidence))
  }

  function UnlinkAll(g: Goal, pids: seq<string>): Goal
    decreases pids
  {
    if pids == [] then g else UnlinkAll(g.UnlinkPacket(pids[0]), pids[1..])
  }

  /** What a caller does with a retry: unlink the dead packets, then record the attempt. */
  function ApplyRetry(g: Goal, unlink: seq<string>, reason: string): Goal {
    UnlinkAll(g, unlink).AddEvidence(Evidence(REPLANNED, reason, None))
  }

  // ---------------------------------------------------------------------------------------------
  // The independent accountings agree
  // ---------------------------------------------------------------------------------------------

  lemma ElementsCons(x: string, s: seq<string>, keep: set<string>)
    requires x !in s
    ensures |keep * Elements([x] + s)| == |keep * Elements(s)| + if x in keep then 1 else 0
  {
    assert Elements([x] + s) == Elements(s) + {x};
    if x in keep {
      assert keep * Elements([x] + s) == keep * Elements(s) + {x};
    } else {
      assert keep * Elements([x] + s) == keep * Elements(s);
    }
  }

  lemma {:induction false} OnlyCounts(s: seq<string>, keep: set<string>)
    requires NoDuplicates(s)
    ensures |Only(s, keep)| == |keep * Elements(s)|
  {
    if s == [] {
      assert keep * Elements(s) == {};
    } else {
      assert s == [s[0]] + s[1..];
      NoDuplicatesCons(s[0], s[1..]);
      OnlyCounts(s[1..], keep);
      ElementsCons(s[0], s[1..], keep);
    }
  }

  lemma {:induction false} NextPacketIsHead(order: seq<string>, executed: set<string>, refused: set<string>,
                                            keep: set<string>)
    requires forall x :: x in order && x in keep <==> x in order && x !in executed && x !in refused
    ensures NextPacket(order, executed, refused) ==
      var r := Only(order, keep); if r == [] then None else Some(r[0])
  {
    if order != [] {
      assert order == [order[0]] + order[1..];
      NextPacketIsHead(order[1..], executed, refused, keep);
    }
  }

  lemma {:induction false} OnlyTwice(s: seq<string>, a: set<string>, b: set<string>)
    ensures Only(Only(s, a), b) == Only(s, a * b)
  {
    if s != [] {
      OnlyTwice(s[1..], a, b);
      var t := Only(s[1..], a);
      var u := Only(s, a);
      if s[0] in a {
        assert u == [s[0]] + t && u[1..] == t;
      } else {
        assert u == t;
      }
    }
  }

  lemma {:induction false} OnlySame(s: seq<string>, a: set<string>, b: set<string>)
    requires forall x :: x in s ==> (x in a <==> x in b)
    ensures Only(s, a) == Only(s, b)
  {
    if s != [] {
      assert s == [s[0]] + s[1..];
      OnlySame(s[1..], a, b);
    }
  }

  /** Every counted packet is executed, blocked or pending, exactly one of them. */
  lemma TallyPartitions(g: Goal)
    ensures var t := TallyPackets(g); t.total == t.executed + t.blocked + t.pending
  {
    assert Proposed(g) == Executed(g) + Refused(g) + Pending(g);
    assert Executed(g) !! Refused(g) && (Executed(g) + Refused(g)) !! Pending(g);
  }

  lemma PendingIdsCount(g: Goal)
    requires WellFormed(g)
    ensures |PendingPacketIds(g)| == |Pending(g)|
  {
    var open := Proposed(g) - (Refs(g, EXECUTION) + Refs(g, DECISION));
    OnlyCounts(g.packets, open);
    assert open * Elements(g.packets) == Pending(g);
  }

  lemma BlockedIdsCount(g: Goal)
    requires WellFormed(g)
    ensures |BlockedPacketIds(g)| == |Refused(g)|
  {
    var refused := Proposed(g) * Refs(g, DECISION) - Refs(g, EXECUTION);
    OnlyCounts(g.packets, refused);
    assert refused * Elements(g.packets) == Refused(g);
  }

  lemma NextIsFirstPending(g: Goal)
    ensures NextPacket(Only(g.packets, Refs(g, PROPOSAL)), Refs(g, EXECUTION), Refs(g, DECISION) - Refs(g, EXECUTION))
      == if PendingPacketIds(g) == [] then None else Some(PendingPacketIds(g)[0])
  {
    var proposed, executed, decided := Refs(g, PROPOSAL), Refs(g, EXECUTION), Refs(g, DECISION);
    var open := Proposed(g) - (executed + decided);
    var order := Only(g.packets, proposed);
    NextPacketIsHead(order, executed, decided - executed, open);
    OnlyTwice(g.packets, proposed, open);
    OnlySame(g.packets, proposed * open, open);
  }

  /** Four accountings of one goal agree: the tally, the pending and blocked id lists, and the packet
      that progress names next whenever no child of the goal resolves. */
  lemma AccountingsAgree(g: Goal, children: seq<Goal>)
    requires WellFormed(g)
    ensures var t := TallyPackets(g);
      && t.total == t.executed + t.blocked + t.pending
      && |PendingPacketIds(g)| == t.pending
      && |BlockedPacketIds(g)| == t.blocked
      && (Kids(g.children, ById(children)) == [] ==>
            Progress(g, children).next == if PendingPacketIds(g) == [] then None else Some(PendingPacketIds(g)[0]))
  {
    TallyPartitions(g);
    PendingIdsCount(g);
    BlockedIdsCount(g);
    NextIsFirstPending(g);
  }

  /** Complete means: some packet counts, each counted packet has run, and something was verified. A
      complete goal is never stuck. */
  lemma CompleteIff(g: Goal)
    ensures IsGoalComplete(g) <==>
      && g.status != Abandoned && Proposed(g) != {} && Proposed(g) <= Refs(g, EXECUTION)
      && exists e :: e in g.evidence && e.kind == VERIFICATION
    ensures IsStuck(g) <==> Refused(g) != {} && Pending(g) == {}
  {
    assert |Refused(g)| == 0 <==> Refused(g) == {};
    assert |Pending(g)| == 0 <==> Pending(g) == {};
    if Pending(g) == {} && Refused(g) == {} {
      assert Proposed(g) == Executed(g);
    }
  }

  // ---------------------------------------------------------------------------------------------
  // Progress and continuation agree
  // ---------------------------------------------------------------------------------------------

  lemma {:induction false} ScanFindsFirstOpen(kids: seq<Goal>, parentId: string)
    ensures Scan(kids, parentId) == var open := Select(kids, IsOpen);
      if open == [] then Complete(parentId) else ChildAction(open[0])
  {
    if kids != [] {
      ScanFindsFirstOpen(kids[1..], parentId);
    }
  }

  /** A plan is to be completed when none of its children is open; otherwise the move concerns the first
      open child, and it is to advance exactly when that child is a draft. */
  lemma PlanActionIs(parent: Goal, kids: seq<Goal>)
    ensures var open := Select(kids, IsOpen);
      var a := PlanAction(parent, kids);
      && (a == Noop <==> parent.children == [] || !IsOpen(parent) || kids == [])
      && (a.Complete? ==> a.target == parent.id && open == [])
      && (a != Noop && !a.Complete? ==>
            open != [] && a.target == open[0].id && (a.Advance? <==> open[0].status == Draft))
  {
    ScanFindsFirstOpen(kids, parent.id);
    var open := Select(kids, IsOpen);
    if open != [] { assert open[0] in open; }
  }

  lemma {:induction false} AllDoneIff(kids: seq<Goal>)
    ensures |Select(kids, IsDone)| == |kids| <==> forall k :: k in kids ==> k.status == Done
  {
    if kids != [] {
      assert kids == [kids[0]] + kids[1..];
      AllDoneIff(kids[1..]);
    }
  }

  /** For an open parent with a resolvable child, progress and continuation name the same child, and
      progress names none exactly when the action is to complete the parent. Progress calls the plan
      complete exactly when it is to be completed and no child was abandoned. */
  lemma ProgressMatchesContinuation(parent: Goal, children: seq<Goal>)
    requires IsOpen(parent) && Kids(parent.children, ById(children)) != []
    ensures var p := Progress(parent, children);
      var a := ContinuationAction(parent, children);
      && p.decomposed
      && a != Noop
      && (p.next == None <==> a == Complete(parent.id) && a.Complete?)
      && (!a.Complete? ==> p.next == Some(a.target))
      && (p.complete <==>
            a.Complete? && forall k :: k in Kids(parent.children, ById(children)) ==> k.status != Abandoned)
  {
    var kids := Kids(parent.children, ById(children));
    PlanActionIs(parent, kids);
    AllDoneIff(kids);
    var open := Select(kids, IsOpen);
    if open == [] {
      forall k | k in kids ensures !IsOpen(k) {
        assert k in open || !IsOpen(k);
      }
    } else {
      assert open[0] in open;
    }
  }

  /** An active parent whose one child was abandoned is to be completed, though progress does not call it
      complete. */
  lemma AbandonedChildCompletes()
    ensures var parent := Goal("a", "t", "", Active, None, None, ["b"], [], []);
      var child := Goal("b", "t", "", Abandoned, None, Some("a"), [], [], []);
      ContinuationAction(parent, [child]) == Complete("a") && !Progress(parent, [child]).complete
  {
    var parent := Goal("a", "t", "", Active, None, None, ["b"], [], []);
    var child := Goal("b", "t", "", Abandoned, None, Some("a"), [], [], []);
    var resolved := ById([child]);
    assert ById([child][..0]) == map[] && resolved == map["b" := child];
    assert Kids(["b"][1..], resolved) == [] && Kids(["b"], resolved) == [child];
    ProgressMatchesContinuation(parent, [child]);
    assert Scan([child][1..], "a") == Complete("a");
    assert child in [child];
  }

  predicate IsAbandoned(g: Goal) { g.status == Abandoned }

  lemma {:induction false} KidsByStatus(kids: seq<Goal>)
    ensures |kids| == |Select(kids, IsDone)| + |Select(kids, IsAbandoned)| + |Select(kids, IsOpen)|
    ensures |Select(kids, IsBlocked)| <= |Select(kids, IsOpen)|
  {
    if kids != [] { KidsByStatus(kids[1..]); }
  }

  /** How many goals of a list have a status. */
  ghost function CountOf(kids: seq<Goal>, status: Status): nat {
    |set i | 0 <= i < |kids| && kids[i].status == status|
  }

  lemma StatusesAreCounted(kids: seq<Goal>)
    ensures |Select(kids, IsDone)| == CountOf(kids, Done)
    ensures |Select(kids, IsBlocked)| == CountOf(kids, Blocked)
    ensures |Select(kids, IsAbandoned)| == CountOf(kids, Abandoned)
  {
    SelectCounts(kids, IsDone);
    SelectCounts(kids, IsBlocked);
    SelectCounts(kids, IsAbandoned);
    assert Hits(kids, IsDone) == set i | 0 <= i < |kids| && kids[i].status == Done;
    assert Hits(kids, IsBlocked) == set i | 0 <= i < |kids| && kids[i].status == Blocked;
    assert Hits(kids, IsAbandoned) == set i | 0 <= i < |kids| && kids[i].status == Abandoned;
  }

  /** The counts of a progress report add up: for a plan every child is done, abandoned or pending, and
      for a leaf every counted packet is done, blocked or pending. The ratio lies between 0 and 1, and is
      1 exactly when there are steps and all are done. */
  lemma ProgressAddsUp(g: Goal, children: seq<Goal>)
    ensures var p := Progress(g, children); var kids := Kids(g.children, ById(children));
      && (p.decomposed <==> kids != [])
      && (p.decomposed ==>
            p.total == |kids| == p.done + |Select(kids, IsAbandoned)| + p.pending && p.blocked <= p.pending)
      && (!p.decomposed ==> p.total == p.done + p.blocked + p.pending)
      && 0.0 <= p.ratio <= 1.0 && (p.ratio == 1.0 <==> p.total > 0 && p.done == p.total)
  {
    var kids := Kids(g.children, ById(children));
    KidsByStatus(kids);
    TallyPartitions(g);
    var p := Progress(g, children);
    RatioRange(p.done, p.total);
  }

  /** What a progress report counts: the children of a plan by their status, or the packets of a leaf by
      their class. */
  lemma ProgressCounts(g: Goal, children: seq<Goal>)
    ensures var p := Progress(g, children); var kids := Kids(g.children, ById(children));
      && (kids != [] ==> p.done == CountOf(kids, Done) && p.blocked == CountOf(kids, Blocked))
      && (kids != [] ==> p.pending == |kids| - CountOf(kids, Done) - CountOf(kids, Abandoned))
      && (kids == [] ==> p.done == |Executed(g)| && p.blocked == |Refused(g)| && p.pending == |Pending(g)|)
  {
    StatusesAreCounted(Kids(g.children, ById(children)));
    ProgressAddsUp(g, children);
  }

  predicate IsShare(ratio: real, done: nat, total: nat) {
    if total == 0 then ratio == 0.0 else ratio * total as real == done as real
  }

  /** The ratio is the share that is done, and zero when there is nothing to do. */
  lemma RatioIsShare(g: Goal, children: seq<Goal>)
    ensures var p := Progress(g, children); IsShare(p.ratio, p.done, p.total)
  {
    var p := Progress(g, children);
    assert p.ratio == Ratio(p.done, p.total);
    RatioIs(p.ratio, p.done, p.total);
  }

  lemma RatioIs(ratio: real, done: nat, total: nat)
    requires ratio == Ratio(done, total)
    ensures IsShare(ratio, done, total)
  {}

  ghost predicate FirstLeft(kids: seq<Goal>, n: nat)
    requires n < |kids|
  {
    kids[n].status !in {Done, Abandoned} && forall j :: 0 <= j < n ==> kids[j].status in {Done, Abandoned}
  }

  /** The step a progress report names next: the first child of the plan that is neither done nor
      abandoned, and none when there is no such child. */
  lemma NextStepIs(g: Goal, children: seq<Goal>)
    requires Kids(g.children, ById(children)) != []
    ensures var next, kids := Progress(g, children).next, Kids(g.children, ById(children));
      && (next == None <==> forall i :: 0 <= i < |kids| ==> kids[i].status in {Done, Abandoned})
      && (forall n :: 0 <= n < |kids| && FirstLeft(kids, n) ==> next == Some(kids[n].id))
  {
    var kids := Kids(g.children, ById(children));
    SelectFirst(kids, IsOpen);
  }

  lemma {:induction false} OnlyFirst(s: seq<string>, keep: set<string>, i: nat)
    requires i < |s| && s[i] in keep && forall j :: 0 <= j < i ==> s[j] !in keep
    ensures Only(s, keep) != [] && Only(s, keep)[0] == s[i]
  {
    if i > 0 {
      assert forall j :: 0 <= j < i - 1 ==> s[1..][j] == s[j + 1];
      OnlyFirst(s[1..], keep, i - 1);
    }
  }

  /** The packet a leaf's progress report names next: the first linked one that is pending, and none when
      none is. */
  lemma NextPacketIs(g: Goal, children: seq<Goal>)
    requires Kids(g.children, ById(children)) == []
    ensures var next := Progress(g, children).next;
      && (next == None <==> Pending(g) == {})
      && (forall i: nat :: FirstPending(g, i) ==> next == Some(g.packets[i]))
  {
    var open := Proposed(g) - (Refs(g, EXECUTION) + Refs(g, DECISION));
    NextIsFirstPending(g);
    assert forall p :: p in g.packets ==> (p in open <==> p in Pending(g));
    forall i: nat | FirstPending(g, i) ensures Progress(g, children).next == Some(g.packets[i]) {
      OnlyFirst(g.packets, open, i);
    }
    if Pending(g) != {} {
      var p :| p in Pending(g);
      assert p in PendingPacketIds(g);
    }
    if PendingPacketIds(g) != [] { assert PendingPacketIds(g)[0] in Pending(g); }
  }

  ghost predicate FirstPending(g: Goal, i: nat) {
    i < |g.packets| && g.packets[i] in Pending(g) && forall j :: 0 <= j < i ==> g.packets[j] !in Pending(g)
  }

  /** What a packet counts as, by the entries of evidence that name it. */
  lemma PacketClasses(g: Goal, p: string)
    ensures p in Proposed(g) <==> p in g.packets && Named(g, "proposal", p)
    ensures p in Executed(g) <==> p in g.packets && Named(g, "proposal", p) && Named(g, "execution", p)
    ensures p in Refused(g) <==>
      p in g.packets && Named(g, "proposal", p) && Named(g, "decision", p) && !Named(g, "execution", p)
    ensures p in Pending(g) <==>
      p in g.packets && Named(g, "proposal", p) && !Named(g, "decision", p) && !Named(g, "execution", p)
  {}

  ghost predicate Named(g: Goal, kind: string, p: string) {
    p != "" && exists i :: 0 <= i < |g.evidence| && g.evidence[i].kind == kind && g.evidence[i].ref == Some(p)
  }

  /** The children of a plan that resolve come in the order of its ids. */
  lemma {:induction false} KidsInOrder(a: seq<string>, b: seq<string>, resolved: map<string, Goal>)
    ensures Kids(a + b, resolved) == Kids(a, resolved) + Kids(b, resolved)
    ensures forall c :: Kids([c], resolved) == if c in resolved then [resolved[c]] else []
  {
    forall c ensures Kids([c], resolved) == if c in resolved then [resolved[c]] else [] {
      assert Kids([c][1..], resolved) == [];
    }
    if a == [] {
      assert a + b == b;
    } else {
      assert (a + b)[1..] == a[1..] + b;
      KidsInOrder(a[1..], b, resolved);
      var first := if a[0] in resolved then [resolved[a[0]]] else [];
      ConcatAssociates(first, Kids(a[1..], resolved), Kids(b, resolved));
    }
  }

  /** An id resolves to the last of the goals given that has it. */
  lemma {:induction false} ByIdIsLast(gs: seq<Goal>, i: nat)
    requires i < |gs| && forall j :: i < j < |gs| ==> gs[j].id != gs[i].id
    ensures gs[i].id in ById(gs) && ById(gs)[gs[i].id] == gs[i]
  {
    if i < |gs| - 1 { ByIdIsLast(gs[..|gs| - 1], i); }
  }

  lemma RatioRange(done: nat, total: nat)
    requires done <= total
    ensures 0.0 <= Ratio(done, total) <= 1.0 && (Ratio(done, total) == 1.0 <==> total > 0 && done == total)
  {}

  /** Continuation asks to replan a child exactly when it is marked blocked, or is active and stuck in the
      sense of the replan policy; an active child that is not stuck is waited for. */
  lemma ReplanExactlyWhenStuck(c: Goal)
    requires IsOpen(c)
    ensures ChildAction(c).Replan? <==> c.status == Blocked || (c.status == Active && IsStuck(c))
    ensures ChildAction(c).Wait? <==> c.status == AwaitingApproval || (c.status == Active && !IsStuck(c))
    ensures ChildAction(c).Advance? <==> c.status == Draft
  {
    if c.status == Active { StuckByTally(c); }
  }

  /** The clause about completeness in the definition of stuck never decides. */
  lemma StuckByTally(g: Goal)
    ensures IsStuck(g) <==> TallyPackets(g).blocked > 0 && TallyPackets(g).pending == 0
  {
    var t := TallyPackets(g);
    if t.blocked > 0 { assert !IsGoalComplete(g); }
  }

  /** The number of replan entries on record. */
  ghost function Replans(evidence: seq<Evidence>): nat {
    |set i | 0 <= i < |evidence| && evidence[i].kind == "replan"|
  }

  lemma ReplansLast(before: seq<Evidence>, last: Evidence)
    ensures Replans(before + [last]) == Replans(before) + if last.kind == "replan" then 1 else 0
  {
    var evidence := before + [last];
    var all := set i | 0 <= i < |evidence| && evidence[i].kind == "replan";
    var some := set i | 0 <= i < |before| && before[i].kind == "replan";
    assert all == some + if last.kind == "replan" then {|before|} else {};
  }

  lemma {:induction false} AttemptsAreReplans(evidence: seq<Evidence>)
    ensures Attempts(evidence) == Replans(evidence)
  {
    if evidence != [] {
      var before, last := evidence[..|evidence| - 1], evidence[|evidence| - 1];
      assert evidence == before + [last];
      AttemptsAreReplans(before);
      ReplansLast(before, last);
    }
  }

  predicate IsRefusal(e: Evidence) { e.kind == DECISION || e.kind == STUCK }

  ghost predicate LatestRefusal(evidence: seq<Evidence>, i: nat) {
    i < |evidence| && IsRefusal(evidence[i]) && forall j :: i < j < |evidence| ==> !IsRefusal(evidence[j])
  }

  /** The persisted reason is that of the latest refusal or escalation on record. */
  lemma {:induction false} BlockedReasonIsLatest(evidence: seq<Evidence>)
    ensures BlockedReason(evidence) == None <==> forall e :: e in evidence ==> !IsRefusal(e)
    ensures forall i: nat :: LatestRefusal(evidence, i) ==> BlockedReason(evidence) == Some(evidence[i].summary)
  {
    if evidence != [] {
      var n := |evidence| - 1;
      var before := evidence[..n];
      assert evidence == before + [evidence[n]];
      BlockedReasonIsLatest(before);
      assert evidence[n] in evidence && forall e :: e in before ==> e in evidence;
      forall i: nat | LatestRefusal(evidence, i) ensures BlockedReason(evidence) == Some(evidence[i].summary) {
        if i < n { assert LatestRefusal(before, i); }
      }
    }
  }

  /** The reason given is the latest one on record, or a fixed text when that is empty or there is none. */
  lemma ReasonIsLatest(evidence: seq<Evidence>, i: nat)
    ensures LatestRefusal(evidence, i) && evidence[i].summary != "" ==> Reason(evidence) == evidence[i].summary
    ensures LatestRefusal(evidence, i) && evidence[i].summary == "" ==>
      Reason(evidence) == "gate-blocked (no recorded reason)"
    ensures (forall e :: e in evidence ==> e.kind != "decision" && e.kind != "blocked") ==>
      Reason(evidence) == "gate-blocked (no recorded reason)"
  {
    BlockedReasonIsLatest(evidence);
  }

  // ---------------------------------------------------------------------------------------------
  // Evidence only grows, so a packet's class only moves up
  // ---------------------------------------------------------------------------------------------

  /** 0 pending, 1 refused, 2 executed. */
  function Rank(g: Goal, pid: string): nat {
    if pid in Refs(g, EXECUTION) then 2 else if pid in Refs(g, DECISION) then 1 else 0
  }

  lemma RankIsClass(g: Goal, pid: string)
    requires pid in Proposed(g)
    ensures Rank(g, pid) == 2 <==> pid in Executed(g)
    ensures Rank(g, pid) == 1 <==> pid in Refused(g)
    ensures Rank(g, pid) == 0 <==> pid in Pending(g)
  {}

  lemma RefsGrow(g: Goal, g': Goal, kind: string)
    requires g.evidence <= g'.evidence
    ensures Refs(g, kind) <= Refs(g', kind)
  {
    assert forall e :: e in g.evidence ==> e in g'.evidence;
  }

  /** Over every run a packet moves only from pending to refused to executed, never back, even when it
      is unlinked and linked again; a refused packet is never pending again. */
  lemma ClassNeverGoesBack(g: Goal, ops: seq<Op>, pid: string)
    requires WellFormed(g)
    ensures Rank(g, pid) <= Rank(Run(g, ops), pid)
    ensures pid in Refs(g, PROPOSAL) ==> pid in Refs(Run(g, ops), PROPOSAL)
  {
    RunKeepsWellFormed(g, ops);
    RefsGrow(g, Run(g, ops), EXECUTION);
    RefsGrow(g, Run(g, ops), DECISION);
    RefsGrow(g, Run(g, ops), PROPOSAL);
  }

  // ---------------------------------------------------------------------------------------------
  // Bounded replanning
  // ---------------------------------------------------------------------------------------------

  lemma {:induction false} UnlinkAllDrops(g: Goal, pids: seq<string>)
    ensures var g' := UnlinkAll(g, pids);
      && g' == g.(packets := g'.packets)
      && (forall p :: p in g'.packets <==> p in g.packets && p !in pids)
    decreases pids
  {
    if pids != [] {
      assert pids == [pids[0]] + pids[1..];
      UnlinkAllDrops(g.UnlinkPacket(pids[0]), pids[1..]);
    }
  }

  lemma AddedEvidenceRefs(g: Goal, e: Evidence, kind: string)
    requires e.ref == None
    ensures Refs(g.AddEvidence(e), kind) == Refs(g, kind)
  {
    RefsGrow(g, g.AddEvidence(e), kind);
  }

  lemma RetryKeepsRefs(g: Goal, unlink: seq<string>, reason: string, kind: string)
    ensures Refs(ApplyRetry(g, unlink, reason), kind) == Refs(g, kind)
  {
    UnlinkAllDrops(g, unlink);
    AddedEvidenceRefs(UnlinkAll(g, unlink), Evidence(REPLANNED, reason, None), kind);
  }

  lemma BlockedIdsAreRefused(g: Goal, p: string)
    ensures p in BlockedPacketIds(g) <==> p in Refused(g)
  {}

  lemma RetryPackets(g: Goal, unlink: seq<string>, reason: string)
    requires forall p :: p in unlink <==> p in Refused(g)
    ensures var g' := ApplyRetry(g, unlink, reason);
      && (forall p :: p in g'.packets <==> p in g.packets && p !in Refused(g))
      && Executed(g') == Executed(g) && Refused(g') == {} && Pending(g') == Pending(g)
  {
    UnlinkAllDrops(g, unlink);
    RetryKeepsRefs(g, unlink, reason, PROPOSAL);
    RetryKeepsRefs(g, unlink, reason, EXECUTION);
    RetryKeepsRefs(g, unlink, reason, DECISION);
    assert Proposed(ApplyRetry(g, unlink, reason)) == Proposed(g) - Refused(g);
  }

  /** Applying a retry removes exactly the blocked packets, keeps the executed ones, records one more
      attempt and leaves the goal not stuck. */
  lemma RetryClears(g: Goal, maxAttempts: int)
    requires ReplanOf(g, maxAttempts).Retry?
    ensures var d := ReplanOf(g, maxAttempts);
      var g' := ApplyRetry(g, d.unlink, d.reason);
      && (forall p :: p in g'.packets <==> p in g.packets && p !in Refused(g))
      && Executed(g') == Executed(g) && Refused(g') == {} && Pending(g') == {}
      && !IsStuck(g')
      && Attempts(g'.evidence) == Attempts(g.evidence) + 1 == d.attempt
      && g' == g.(packets := g'.packets, evidence := g.evidence + [Evidence(REPLANNED, d.reason, None)])
  {
    var d := ReplanOf(g, maxAttempts);
    var g' := ApplyRetry(g, d.unlink, d.reason);
    forall p ensures p in d.unlink <==> p in Refused(g) { BlockedIdsAreRefused(g, p); }
    RetryPackets(g, d.unlink, d.reason);
    UnlinkAllDrops(g, d.unlink);
    CompleteIff(g);
    CompleteIff(g');
    assert g'.evidence[..|g'.evidence| - 1] == g.evidence;
  }

  /** A run that mixes ordinary operations with attempts to replan. */
  datatype Turn = Do(op: Op) | TryReplan

  function TakeTurn(g: Goal, d: Turn, maxAttempts: int): Goal {
    match d
    case Do(op) => Step(g, op)
    case TryReplan =>
      match ReplanOf(g, maxAttempts)
      case Retry(unlink, _, reason) => ApplyRetry(g, unlink, reason)
      case _ => g
  }

  /** How many retries a run performs. */
  function Retries(g: Goal, ds: seq<Turn>, maxAttempts: int): nat
    decreases ds
  {
    if ds == [] then 0
    else
      (if ds[0].TryReplan? && ReplanOf(g, maxAttempts).Retry? then 1 else 0)
      + Retries(TakeTurn(g, ds[0], maxAttempts), ds[1..], maxAttempts)
  }

  lemma {:induction false} AttemptsGrow(a: seq<Evidence>, b: seq<Evidence>)
    requires a <= b
    ensures Attempts(a) <= Attempts(b)
    decreases |b|
  {
    if |a| < |b| {
      assert a <= b[..|b| - 1];
      AttemptsGrow(a, b[..|b| - 1]);
    } else {
      assert a == b;
    }
  }

  lemma TurnAttempts(g: Goal, d: Turn, maxAttempts: int)
    ensures Attempts(TakeTurn(g, d, maxAttempts).evidence) >=
      Attempts(g.evidence) + if d.TryReplan? && ReplanOf(g, maxAttempts).Retry? then 1 else 0
  {
    match d {
      case Do(op) =>
        StepGrowsEvidence(g, op);
        AttemptsGrow(g.evidence, Step(g, op).evidence);
      case TryReplan =>
        if ReplanOf(g, maxAttempts).Retry? { RetryClears(g, maxAttempts); }
    }
  }

  /** Replanning is bounded: however ordinary operations are mixed in, a run retries at most as often
      as attempts are left on record, and once they are used up a stuck goal always escalates. */
  lemma {:induction false} RetriesAreBounded(g: Goal, ds: seq<Turn>, maxAttempts: int)
    ensures Retries(g, ds, maxAttempts) <=
      if maxAttempts > Attempts(g.evidence) then maxAttempts - Attempts(g.evidence) else 0
    decreases ds
  {
    if ds != [] {
      TurnAttempts(g, ds[0], maxAttempts);
      RetriesAreBounded(TakeTurn(g, ds[0], maxAttempts), ds[1..], maxAttempts);
    }
  }

  lemma ExhaustedStuckEscalates(g: Goal, maxAttempts: int)
    ensures ReplanOf(g, maxAttempts).Escalate? <==> IsStuck(g) && Attempts(g.evidence) >= maxAttempts
    ensures ReplanOf(g, maxAttempts) == Nothing <==> !IsStuck(g)
  {
    if IsStuck(g) {
      assert ReplanOf(g, maxAttempts)
        == Decision(BlockedPacketIds(g), Attempts(g.evidence), maxAttempts, Reason(g.evidence));
    }
  }
}
