/** The long-term goal record and its transition matrix
    (packages/forgekit-goal/src/forgekit_goal/models.py and transitions.py).

    Goals are immutable: every mutator returns a new goal, or raises. */
module GoalModel {
  import opened Sequences
  import opened Text
  import opened Wrappers

  datatype Status = Draft | Active | Blocked | AwaitingApproval | Done | Abandoned

  const KNOWN_MODES := ["manual", "assisted", "auto"]

  /** One entry of the append-only evidence list. */
  datatype Evidence = Evidence(kind: string, summary: string, ref: Option<string>)

  datatype Goal = Goal(id: string, title: string, intent: string, status: Status, mode: Option<string>,
                       parentId: Option<string>, children: seq<string>, packets: seq<string>,
                       evidence: seq<Evidence>)
  {
    function AddEvidence(e: Evidence): Goal { this.(evidence := evidence + [e]) }

    function LinkPacket(packetId: string): Result<Goal> {
      var pid := Strip(packetId);
      if pid == "" then Raised
      else if pid in packets then Ok(this)
      else Ok(this.(packets := packets + [pid]))
    }

    function UnlinkPacket(packetId: string): Goal {
      this.(packets := Without(packets, packetId))
    }

    function AddChild(childId: string): Result<Goal> {
      var cid := Strip(childId);
      if cid == "" || cid == id then Raised
      else if cid in children then Ok(this)
      else Ok(this.(children := children + [cid]))
    }
  }

  function Without(s: seq<string>, x: string): (r: seq<string>)
    ensures forall y :: y in r <==> y in s && y != x
    ensures x !in s ==> r == s
    ensures NoDuplicates(s) ==> NoDuplicates(r)
  {
    if s == [] then []
    else
      var r := Without(s[1..], x);
      assert s == [s[0]] + s[1..];
      assert NoDuplicates(s) ==> NoDuplicates(s[1..]) && NoDuplicates([s[0]] + r) by {
        NoDuplicatesCons(s[0], s[1..]);
        NoDuplicatesCons(s[0], r);
      }
      if s[0] == x then r else [s[0]] + r
  }

  /** `id` is the identifier the caller chose, or else the generated one. */
  function Create(title: string, intent: string, mode: Option<string>, parentId: Option<string>, id: string)
    : Result<Goal>
  {
    if Strip(title) == "" then Raised
    else if mode.Some? && mode.value !in KNOWN_MODES then Raised
    else Ok(Goal(id, Strip(title), Strip(intent), Draft, mode, parentId, [], [], []))
  }

  // ---------------------------------------------------------------------------------------------
  // Transitions
  // ---------------------------------------------------------------------------------------------

  function AllowedTargets(s: Status): set<Status> {
    match s
    case Draft => {Active, Abandoned}
    case Active => {Blocked, AwaitingApproval, Done, Abandoned}
    case Blocked => {Active, Abandoned}
    case AwaitingApproval => {Active, Blocked, Done, Abandoned}
    case Done => {Active}
    case Abandoned => {Active}
  }

  function Apply(g: Goal, dst: Status): Result<Goal> {
    if dst == g.status then Ok(g)
    else if dst !in AllowedTargets(g.status) then Raised
    else if dst == Done && g.evidence == [] then Raised
    else Ok(g.(status := dst))
  }

  // ---------------------------------------------------------------------------------------------
  // Operations and runs
  // ---------------------------------------------------------------------------------------------

  datatype Op =
    | Record(evidence: Evidence)
    | Link(packetId: string)
    | Unlink(packetId: string)
    | Adopt(childId: string)
    | Move(dst: Status)

  /** An operation that raises leaves the goal as it was. */
  function Step(g: Goal, op: Op): Goal {
    var r := match op
      case Record(e) => Ok(g.AddEvidence(e))
      case Link(pid) => g.LinkPacket(pid)
      case Unlink(pid) => Ok(g.UnlinkPacket(pid))
      case Adopt(cid) => g.AddChild(cid)
      case Move(dst) => Apply(g, dst);
    if r == Raised then g else r.value
  }

  function Run(g: Goal, ops: seq<Op>): Goal
    decreases ops
  {
    if ops == [] then g else Run(Step(g, ops[0]), ops[1..])
  }

  /** Linked ids are stripped, non-empty and listed once; no goal is its own child; no goal is done
      without evidence. */
  ghost predicate WellFormed(g: Goal) {
    && NoDuplicates(g.children) && NoDuplicates(g.packets)
    && g.id !in g.children
    && (forall x :: x in g.children || x in g.packets ==> x != "" && Stripped(x))
    && (g.status == Done ==> g.evidence != [])
  }

  lemma CreatedIsWellFormed(title: string, intent: string, mode: Option<string>, parentId: Option<string>, id: string)
    ensures var r := Create(title, intent, mode, parentId, id);
      r.Ok? ==> WellFormed(r.value) && r.value.status == Draft && r.value.title != "" && Stripped(r.value.title)
  {
    StripIsStripped(title);
  }

  /** Creating a goal raises exactly for a blank title or an unknown mode. */
  lemma CreateIff(title: string, intent: string, mode: Option<string>, parentId: Option<string>, id: string)
    ensures Create(title, intent, mode, parentId, id) ==
      if Strip(title) != ""
        && (mode == None || mode.value == "manual" || mode.value == "assisted" || mode.value == "auto")
      then Ok(Goal(id, Strip(title), Strip(intent), Draft, mode, parentId, [], [], []))
      else Raised
  {}

  lemma StepKeepsWellFormed(g: Goal, op: Op)
    requires WellFormed(g)
    ensures var g' := Step(g, op); WellFormed(g') && g'.id == g.id && g.evidence <= g'.evidence
  {
    match op {
      case Link(pid) => StripIsStripped(pid);
      case Adopt(cid) => StripIsStripped(cid);
      case _ =>
    }
  }

  lemma StepGrowsEvidence(g: Goal, op: Op)
    ensures g.evidence <= Step(g, op).evidence && Step(g, op).id == g.id
  {}

  /** Whatever is done to a goal, in any order and including operations that raise: its record stays
      well formed (so a done goal always has evidence) and its evidence only grows. */
  lemma {:induction false} RunKeepsWellFormed(g: Goal, ops: seq<Op>)
    requires WellFormed(g)
    ensures var g' := Run(g, ops); WellFormed(g') && g'.id == g.id && g.evidence <= g'.evidence
    decreases ops
  {
    if ops != [] {
      StepKeepsWellFormed(g, ops[0]);
      RunKeepsWellFormed(Step(g, ops[0]), ops[1..]);
    }
  }

  /** A new id is linked at the end, a known one is not linked again, and a blank one changes nothing. */
  lemma LinkedAtTheEnd(g: Goal, id: string)
    requires Stripped(id)
    ensures Step(g, Link(id)) == if id == "" || id in g.packets then g else g.(packets := g.packets + [id])
    ensures Step(g, Adopt(id))
      == if id == "" || id == g.id || id in g.children then g else g.(children := g.children + [id])
  {}

  /** The moves there are. */
  lemma MoveIff(g: Goal, dst: Status)
    ensures Step(g, Move(dst)) == g.(status := Step(g, Move(dst)).status)
    ensures dst != g.status ==> (Step(g, Move(dst)).status == dst <==>
      match g.status
      case Draft => dst == Active || dst == Abandoned
      case Active => dst == Blocked || dst == AwaitingApproval || dst == Abandoned || (dst == Done && g.evidence != [])
      case Blocked => dst == Active || dst == Abandoned
      case AwaitingApproval =>
        dst == Active || dst == Blocked || dst == Abandoned || (dst == Done && g.evidence != [])
      case Done => dst == Active
      case Abandoned => dst == Active)
  {}

  /** A status is left only along the matrix: done and abandoned goals can only be reopened, and a
      goal becomes done only from active or awaiting approval, with evidence. */
  lemma StatusChangesAreLegal(g: Goal, op: Op)
    ensures var s := Step(g, op).status;
      && (s != g.status ==> s in AllowedTargets(g.status))
      && (g.status in {Done, Abandoned} && s != g.status ==> s == Active)
      && (s == Done && g.status != Done ==> g.status in {Active, AwaitingApproval} && g.evidence != [])
      && (s != Draft || g.status == Draft)
  {}
}
