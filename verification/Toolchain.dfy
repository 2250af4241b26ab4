/** Switching tool versions behind an approval gate
    (packages/forgekit-toolchain/src/forgekit_toolchain/plan.py, surface.py, detect.py, profile.py). */
module Toolchain {
  import opened Sequences
  import opened Text
  import opened Wrappers

  /** One wanted tool; an empty version only asks for presence. */
  datatype Requirement = Requirement(tool: string, version: string, source: string)

  predicate Pinned(r: Requirement) { Strip(r.version) != "" }

  predicate DifferentTools(a: Requirement, b: Requirement) { a.tool != b.tool }

  ghost predicate OnePerTool(tools: seq<Requirement>) { Pairwise(tools, DifferentTools) }

  // ---------------------------------------------------------------------------------------------
  // Profiles
  // ---------------------------------------------------------------------------------------------

  predicate HasTool(rs: seq<Requirement>, tool: string) {
    exists r :: r in rs && r.tool == tool
  }

  /** A dictionary filled first-wins and listed in insertion order. */
  function FirstPerTool(rs: seq<Requirement>): seq<Requirement> {
    if rs == [] then []
    else
      var before := FirstPerTool(rs[..|rs| - 1]);
      var last := rs[|rs| - 1];
      if HasTool(before, last.tool) then before else before + [last]
  }

  function Flatten(manifests: seq<seq<Requirement>>): seq<Requirement> {
    if manifests == [] then [] else Flatten(manifests[..|manifests| - 1]) + manifests[|manifests| - 1]
  }

  /** `manifests` holds what each file declares, in scan order. */
  method DetectRequirements(manifests: seq<seq<Requirement>>) returns (seen: seq<Requirement>)
    ensures seen == FirstPerTool(Flatten(manifests))
  {
    var collected: seq<Requirement> := [];
    for i := 0 to |manifests|
      invariant collected == Flatten(manifests[..i])
    {
      assert manifests[..i + 1][..i] == manifests[..i];
      collected := collected + manifests[i];
    }
    assert manifests[..|manifests|] == manifests;
    seen := [];
    for i := 0 to |collected|
      invariant seen == FirstPerTool(collected[..i])
    {
      assert collected[..i + 1][..i] == collected[..i];
      if !HasTool(seen, collected[i].tool) {
        seen := seen + [collected[i]];
      }
    }
    assert collected[..|collected|] == collected;
  }

  /** The requirements a loadout's weapons stand for; weapons that are no runtimes are skipped. */
  function WeaponTools(weapons: seq<string>, toolOf: map<string, string>, versionOf: string -> string)
    : seq<Requirement>
  {
    if weapons == [] then []
    else
      WeaponTools(weapons[..|weapons| - 1], toolOf, versionOf)
      + var w := weapons[|weapons| - 1];
        if w in toolOf && toolOf[w] != "" then [Requirement(toolOf[w], versionOf(toolOf[w]), "loadout")] else []
  }

  method ProfileForLoadout(weapons: seq<string>, toolOf: map<string, string>, versionOf: string -> string)
    returns (seen: seq<Requirement>)
    ensures seen == FirstPerTool(WeaponTools(weapons, toolOf, versionOf))
  {
    seen := [];
    for i := 0 to |weapons|
      invariant seen == FirstPerTool(WeaponTools(weapons[..i], toolOf, versionOf))
    {
      assert weapons[..i + 1][..i] == weapons[..i];
      if weapons[i] !in toolOf || toolOf[weapons[i]] == "" {
        assert WeaponTools(weapons[..i + 1], toolOf, versionOf) == WeaponTools(weapons[..i], toolOf, versionOf);
        continue;
      }
      var req := Requirement(toolOf[weapons[i]], versionOf(toolOf[weapons[i]]), "loadout");
      ghost var earlier := WeaponTools(weapons[..i], toolOf, versionOf);
      assert WeaponTools(weapons[..i + 1], toolOf, versionOf) == earlier + [req];
      assert (earlier + [req])[..|earlier|] == earlier;
      if !HasTool(seen, req.tool) {
        seen := seen + [req];
      }
    }
    assert weapons[..|weapons|] == weapons;
  }

  function Missing(have: seq<Requirement>, more: seq<Requirement>): (r: seq<Requirement>)
    ensures forall x :: x in r <==> x in more && !HasTool(have, x.tool)
  {
    if more == [] then []
    else
      assert more == [more[0]] + more[1..];
      (if HasTool(have, more[0].tool) then [] else [more[0]]) + Missing(have, more[1..])
  }

  /** Detection wins; the loadout fills in tools the repository does not pin. */
  function Merge(detected: seq<Requirement>, loadout: Option<seq<Requirement>>): seq<Requirement> {
    match loadout
    case None => detected
    case Some(more) => detected + Missing(detected, more)
  }

  lemma HasToolAppend(rs: seq<Requirement>, r: Requirement, tool: string)
    ensures HasTool(rs + [r], tool) <==> HasTool(rs, tool) || r.tool == tool
  {
    if HasTool(rs, tool) {
      var x :| x in rs && x.tool == tool;
      assert x in rs + [r];
    }
    if r.tool == tool { assert r in rs + [r]; }
  }

  lemma {:induction false} FirstPerToolKeepsTools(rs: seq<Requirement>, tool: string)
    ensures HasTool(FirstPerTool(rs), tool) <==> HasTool(rs, tool)
  {
    if rs != [] {
      var before, last := rs[..|rs| - 1], rs[|rs| - 1];
      assert rs == before + [last];
      FirstPerToolKeepsTools(before, tool);
      FirstPerToolKeepsTools(before, last.tool);
      HasToolAppend(before, last, tool);
      HasToolAppend(FirstPerTool(before), last, tool);
    }
  }

  lemma {:induction false} FirstPerToolUnique(rs: seq<Requirement>)
    ensures OnePerTool(FirstPerTool(rs))
  {
    if rs != [] {
      var before, last := FirstPerTool(rs[..|rs| - 1]), rs[|rs| - 1];
      FirstPerToolUnique(rs[..|rs| - 1]);
      if !HasTool(before, last.tool) { PairwiseAppend(before, [last], DifferentTools); }
    }
  }

  /** The declaration at position `i` is the first of its tool. */
  ghost predicate DeclaredFirst(rs: seq<Requirement>, r: Requirement, i: nat) {
    i < |rs| && rs[i] == r && forall j :: 0 <= j < i ==> rs[j].tool != r.tool
  }

  /** What is listed for a tool is its first declaration in scan order, so an explicit manifest is never
      overridden by a later hint. */
  lemma {:induction false} FirstDeclarationWins(rs: seq<Requirement>, r: Requirement)
    ensures r in FirstPerTool(rs) <==> exists i: nat :: DeclaredFirst(rs, r, i)
  {
    if rs != [] {
      var n := |rs| - 1;
      var init := rs[..n];
      FirstDeclarationWins(init, r);
      FirstPerToolKeepsTools(init, rs[n].tool);
      forall i: nat | i < n ensures DeclaredFirst(init, r, i) <==> DeclaredFirst(rs, r, i) {}
      assert forall j :: 0 <= j < n ==> init[j] == rs[j] && init[j] in init;
      assert DeclaredFirst(rs, r, n) <==> rs[n] == r && !HasTool(init, r.tool);
    }
  }

  /** Tools are listed in the order of their first declarations. */
  lemma {:induction false} ListedInOrder(rs: seq<Requirement>, a: nat, b: nat, i: nat, j: nat)
    requires a < b < |FirstPerTool(rs)|
    requires DeclaredFirst(rs, FirstPerTool(rs)[a], i) && DeclaredFirst(rs, FirstPerTool(rs)[b], j)
    ensures i < j
  {
    var n := |rs| - 1;
    var init, before := rs[..n], FirstPerTool(rs[..n]);
    if b < |before| {
      assert before[a] in before && before[b] in before;
      FirstDeclarationWins(init, before[a]);
      FirstDeclarationWins(init, before[b]);
      ListedInOrder(init, a, b, i, j);
    } else {
      assert before[a] in before;
      FirstDeclarationWins(init, before[a]);
      FirstPerToolKeepsTools(init, rs[n].tool);
      assert forall k :: 0 <= k < n ==> init[k] == rs[k] && init[k] in init;
    }
  }

  lemma {:induction false} MissingOnePerTool(have: seq<Requirement>, more: seq<Requirement>)
    requires OnePerTool(more)
    ensures OnePerTool(Missing(have, more))
  {
    if more != [] {
      assert more == [more[0]] + more[1..];
      PairwiseCons(more[0], more[1..], DifferentTools);
      MissingOnePerTool(have, more[1..]);
      PairwiseCons(more[0], Missing(have, more[1..]), DifferentTools);
    }
  }

  /** The profile a switch works on: what the manifests declare, filled up from the weapons of a
      loadout, if one is given. */
  function Profile(manifests: seq<seq<Requirement>>, loadout: Option<seq<Requirement>>): seq<Requirement> {
    Merge(FirstPerTool(Flatten(manifests)), if loadout == None then None else Some(FirstPerTool(loadout.value)))
  }

  /** The effective profile lists each tool once, whatever the manifests and the loadout say. */
  lemma ProfileListsToolsOnce(manifests: seq<seq<Requirement>>, loadout: Option<seq<Requirement>>)
    ensures OnePerTool(Profile(manifests, loadout))
  {
    var detected := FirstPerTool(Flatten(manifests));
    FirstPerToolUnique(Flatten(manifests));
    if loadout.Some? {
      var more := FirstPerTool(loadout.value);
      FirstPerToolUnique(loadout.value);
      MissingOnePerTool(detected, more);
      forall x, y | x in detected && y in Missing(detected, more) ensures DifferentTools(x, y) {
        assert !HasTool(detected, y.tool);
      }
      PairwiseAppend(detected, Missing(detected, more), DifferentTools);
    }
  }

  lemma {:induction false} MissingLast(have: seq<Requirement>, more: seq<Requirement>, x: Requirement)
    ensures Missing(have, more + [x]) == Missing(have, more) + if HasTool(have, x.tool) then [] else [x]
  {
    if more == [] {
      assert [] + [x] == [x] && [x][1..] == [];
    } else {
      assert (more + [x])[1..] == more[1..] + [x];
      MissingLast(have, more[1..], x);
    }
  }

  lemma MissingHas(have: seq<Requirement>, more: seq<Requirement>, tool: string)
    ensures HasTool(have + Missing(have, more), tool) <==> HasTool(have, tool) || HasTool(more, tool)
  {
    var all := have + Missing(have, more);
    if HasTool(have, tool) {
      var r :| r in have && r.tool == tool;
      assert r in all;
    } else if HasTool(more, tool) {
      var r :| r in more && r.tool == tool;
      assert r in all;
    }
  }

  /** Filling up from the loadout is the same as declaring it after everything else. */
  lemma {:induction false} MergeIsFirstPerTool(a: seq<Requirement>, b: seq<Requirement>)
    ensures FirstPerTool(a + b) == FirstPerTool(a) + Missing(FirstPerTool(a), FirstPerTool(b))
  {
    if b == [] {
      assert a + b == a;
    } else {
      var init, last := b[..|b| - 1], b[|b| - 1];
      var have, more := FirstPerTool(a), FirstPerTool(b[..|b| - 1]);
      assert (a + b)[..|a + b| - 1] == a + init;
      MergeIsFirstPerTool(a, init);
      MissingHas(have, more, last.tool);
      MissingLast(have, more, last);
    }
  }

  /** Everything declared, the manifests in scan order and then the loadout. */
  function Declared(manifests: seq<seq<Requirement>>, loadout: Option<seq<Requirement>>): seq<Requirement> {
    Flatten(manifests) + if loadout == None then [] else loadout.value
  }

  /** The profile is the first declaration of each tool, the manifests coming before the loadout. */
  lemma ProfileIsFirstPerTool(manifests: seq<seq<Requirement>>, loadout: Option<seq<Requirement>>)
    ensures Profile(manifests, loadout) == FirstPerTool(Declared(manifests, loadout))
  {
    if loadout == None {
      assert Flatten(manifests) + [] == Flatten(manifests);
    } else {
      MergeIsFirstPerTool(Flatten(manifests), loadout.value);
    }
  }

  ghost predicate Undeclared(rs: seq<Requirement>, tool: string) {
    forall i :: 0 <= i < |rs| ==> rs[i].tool != tool
  }

  lemma ListsToolIff(rs: seq<Requirement>, tool: string)
    ensures HasTool(FirstPerTool(rs), tool) <==> !Undeclared(rs, tool)
  {
    FirstPerToolKeepsTools(rs, tool);
    if HasTool(rs, tool) {
      var r :| r in rs && r.tool == tool;
      var i :| 0 <= i < |rs| && rs[i] == r;
    }
    if !Undeclared(rs, tool) {
      var i :| 0 <= i < |rs| && rs[i].tool == tool;
      assert rs[i] in rs;
    }
  }

  /** What the repository declares wins over the loadout: a tool is listed as the manifests first declare
      it, and as the loadout first declares it only when no manifest declares it. */
  lemma RepositoryWins(manifests: seq<seq<Requirement>>, loadout: Option<seq<Requirement>>, t: Requirement)
    ensures t in Profile(manifests, loadout) <==>
      || (exists i: nat :: DeclaredFirst(Flatten(manifests), t, i))
      || (&& loadout.Some? && Undeclared(Flatten(manifests), t.tool)
          && exists i: nat :: DeclaredFirst(loadout.value, t, i))
  {
    var declared := Flatten(manifests);
    FirstDeclarationWins(declared, t);
    match loadout {
      case None =>
      case Some(more) =>
        FirstDeclarationWins(more, t);
        ListsToolIff(declared, t.tool);
        FilledUp(FirstPerTool(declared), FirstPerTool(more), t);
    }
  }

  lemma FilledUp(have: seq<Requirement>, more: seq<Requirement>, t: Requirement)
    ensures t in Merge(have, Some(more)) <==> t in have || (t in more && !HasTool(have, t.tool))
  {}

  /** Tools are listed in the order of their first declarations, those of the manifests first. */
  lemma ProfileInOrder(manifests: seq<seq<Requirement>>, loadout: Option<seq<Requirement>>, a: nat, b: nat)
    returns (i: nat, j: nat)
    requires a < b < |Profile(manifests, loadout)|
    ensures i < j
    ensures var tools, all := Profile(manifests, loadout), Declared(manifests, loadout);
      DeclaredFirst(all, tools[a], i) && DeclaredFirst(all, tools[b], j)
  {
    var tools, all := Profile(manifests, loadout), Declared(manifests, loadout);
    ProfileIsFirstPerTool(manifests, loadout);
    assert tools[a] in tools && tools[b] in tools;
    FirstDeclarationWins(all, tools[a]);
    FirstDeclarationWins(all, tools[b]);
    i :| DeclaredFirst(all, tools[a], i);
    j :| DeclaredFirst(all, tools[b], j);
    ListedInOrder(all, a, b, i, j);
  }

  /** Files are read one after the other. */
  lemma {:induction false} ManifestsInOrder(a: seq<seq<Requirement>>, b: seq<seq<Requirement>>)
    ensures Flatten(a + b) == Flatten(a) + Flatten(b)
    ensures forall m :: Flatten([m]) == m
  {
    forall m ensures Flatten([m]) == m { assert [m][..0] == []; }
    if b == [] {
      assert a + b == a;
    } else {
      assert (a + b)[..|a + b| - 1] == a + b[..|b| - 1];
      ManifestsInOrder(a, b[..|b| - 1]);
    }
  }

  /** So are the weapons of a loadout. */
  lemma {:induction false} WeaponsInOrder(a: seq<string>, b: seq<string>, toolOf: map<string, string>,
                                          versionOf: string -> string)
    ensures WeaponTools(a + b, toolOf, versionOf)
      == WeaponTools(a, toolOf, versionOf) + WeaponTools(b, toolOf, versionOf)
  {
    if b == [] {
      assert a + b == a;
    } else {
      assert (a + b)[..|a + b| - 1] == a + b[..|b| - 1];
      WeaponsInOrder(a, b[..|b| - 1], toolOf, versionOf);
    }
  }

  /** A weapon stands for the runtime it maps to, if that has a name. */
  lemma WeaponIs(w: string, toolOf: map<string, string>, versionOf: string -> string)
    ensures WeaponTools([w], toolOf, versionOf) == if w !in toolOf || toolOf[w] == "" then []
      else [Requirement(toolOf[w], versionOf(toolOf[w]), "loadout")]
  {
    assert [w][..0] == [] && WeaponTools([], toolOf, versionOf) == [];
  }

  // ---------------------------------------------------------------------------------------------
  // Does an active version satisfy a pin?
  // ---------------------------------------------------------------------------------------------

  function StripOperators(s: string): (r: string)
    ensures |r| <= |s|
  {
    if s != "" && s[0] in "^~>=< " then StripOperators(s[1..]) else s
  }

  predicate IsAlias(r: string) { Lower(r) in ["lts", "latest", "stable"] }

  predicate Satisfies(active: string, required: string) {
    var a, r := Strip(active), Strip(required);
    if r == "" then true
    else if a == "" then false
    else if IsAlias(r) then true
    else
      var ra := StripOperators(r);
      a == ra || ra + "." <= a || a + "." <= ra || ra <= a
  }

  /** Equal, or longer by whole dotted parts. */
  predicate DottedExtends(long: string, short: string) { long == short || short + "." <= long }

  /** The documentation promises a match on whole dotted parts. The code keeps it, for a pin that is
      not an alias, exactly when the active version does not run on past the pin with anything but a
      dot: "200" satisfies the pin "20". */
  lemma SatisfiesDottedIff(active: string, required: string)
    requires Strip(required) != "" && Strip(active) != "" && !IsAlias(Strip(required))
    ensures var a, ra := Strip(active), StripOperators(Strip(required));
      && (Satisfies(active, required) <==> ra <= a || a + "." <= ra)
      && ((Satisfies(active, required) <==> DottedExtends(a, ra) || DottedExtends(ra, a))
          <==> !(ra < a && a[|ra|] != '.'))
  {
    var a, ra := Strip(active), StripOperators(Strip(required));
    if ra < a {
      assert ra + "." <= a <==> a[|ra|] == '.';
    }
  }

  /** Operators and spaces in front of a version do not count. */
  lemma {:induction false} OperatorsDropped(s: string) returns (n: nat)
    ensures n <= |s| && StripOperators(s) == s[n..]
    ensures forall i :: 0 <= i < n ==> s[i] in ['^', '~', '>', '=', '<', ' ']
    ensures n < |s| ==> s[n] !in ['^', '~', '>', '=', '<', ' ']
  {
    if s != "" && s[0] in "^~>=< " {
      var k := OperatorsDropped(s[1..]);
      n := k + 1;
    } else {
      n := 0;
    }
  }

  /** The other pins: an empty one asks for nothing, nothing active meets no other, and an alias is met by
      whatever is active. */
  lemma SatisfiesOtherwise(active: string, required: string)
    ensures Strip(required) == "" ==> Satisfies(active, required)
    ensures Strip(required) != "" && Strip(active) == "" ==> !Satisfies(active, required)
    ensures Lower(Strip(required)) in {"lts", "latest", "stable"} && Strip(active) != "" ==> Satisfies(active, required)
  {}

  lemma TwoHundredSatisfiesTwenty()
    ensures Satisfies("200", "20") && !DottedExtends("200", "20")
  {
    var a, r := "200", "20";
    assert Strip(a) == a && Strip(r) == r && StripOperators(r) == r;
    assert |Lower(r)| == 2;
    SatisfiesDottedIff(a, r);
    assert a[..2] == r;
    assert (r + ".")[2] == '.' && a[2] == '0';
  }

  // ---------------------------------------------------------------------------------------------
  // Verification and planning
  // ---------------------------------------------------------------------------------------------

  datatype State = Match | Mismatch | Absent | Unpinned | ManagerMissing

  type Active = map<string, string>

  function Current(active: Active, tool: string): string {
    if tool in active then active[tool] else ""
  }

  function StateOf(r: Requirement, available: bool, active: Active): State {
    if !available then ManagerMissing
    else
      var cur := Current(active, r.tool);
      if cur == "" then Absent
      else if !Pinned(r) then Unpinned
      else if Satisfies(cur, r.version) then Match
      else Mismatch
  }

  datatype Scope = Local | Install | Global

  datatype Command =
    | InstallVersion(tool: string, version: string)
    | UseVersion(tool: string, version: string, everywhere: bool)

  datatype Action = Action(command: Command, scope: Scope)

  predicate RequiresApproval(a: Action) { a.scope != Local }

  predicate Satisfied(r: Requirement, active: Active) {
    Current(active, r.tool) != "" && Satisfies(Current(active, r.tool), r.version)
  }

  /** Nothing for an unpinned or satisfied tool; an installation first when the tool is absent; then
      the pin, repository-local or global. */
  function ActionsFor(r: Requirement, active: Active, everywhere: bool): seq<Action> {
    if !Pinned(r) || Satisfied(r, active) then []
    else
      (if Current(active, r.tool) == "" then [Action(InstallVersion(r.tool, r.version), Install)] else [])
      + [Action(UseVersion(r.tool, r.version, everywhere), if everywhere then Global else Local)]
  }

  function PlanOf(tools: seq<Requirement>, active: Active, everywhere: bool): seq<Action> {
    if tools == [] then []
    else PlanOf(tools[..|tools| - 1], active, everywhere) + ActionsFor(tools[|tools| - 1], active, everywhere)
  }

  function Known(mgr: Manager): Active
    reads mgr
  {
    if mgr.available then mgr.active else map[]
  }

  lemma PlanNext(tools: seq<Requirement>, i: nat, active: Active, everywhere: bool)
    requires i < |tools|
    ensures PlanOf(tools[..i + 1], active, everywhere)
      == PlanOf(tools[..i], active, everywhere) + ActionsFor(tools[i], active, everywhere)
  {
    assert tools[..i + 1][..i] == tools[..i];
  }

  method PlanSwitch(tools: seq<Requirement>, mgr: Manager, everywhere: bool) returns (actions: seq<Action>)
    ensures actions == PlanOf(tools, Known(mgr), everywhere)
  {
    var active := if mgr.available then mgr.active else map[];
    actions := [];
    for i := 0 to |tools|
      invariant actions == PlanOf(tools[..i], active, everywhere)
    {
      PlanNext(tools, i, active, everywhere);
      var t := tools[i];
      if !Pinned(t) {
        continue;
      }
      if Satisfied(t, active) {
        continue;
      }
      var use := Action(UseVersion(t.tool, t.version, everywhere), if everywhere then Global else Local);
      if Current(active, t.tool) == "" {
        var install := Action(InstallVersion(t.tool, t.version), Install);
        assert actions + ([install] + [use]) == (actions + [install]) + [use];
        actions := actions + [install];
      } else {
        assert [] + [use] == [use];
      }
      actions := actions + [use];
    }
    assert tools[..|tools|] == tools;
  }

  function StatesOf(tools: seq<Requirement>, available: bool, active: Active): (r: seq<State>)
    ensures |r| == |tools| && forall i :: 0 <= i < |tools| ==> r[i] == StateOf(tools[i], available, active)
  {
    seq(|tools|, i requires 0 <= i < |tools| => StateOf(tools[i], available, active))
  }

  method Verify(tools: seq<Requirement>, mgr: Manager) returns (states: seq<State>)
    ensures states == StatesOf(tools, mgr.available, mgr.active)
  {
    states := [];
    ghost var all := StatesOf(tools, mgr.available, mgr.active);
    for i := 0 to |tools|
      invariant states == all[..i]
    {
      var state := StateOf(tools[i], mgr.available, mgr.active);
      assert all[i] == state;
      states := states + [state];
    }
  }

  /** The five states of a tool. */
  lemma StatesMean(r: Requirement, available: bool, active: Active)
    ensures var state := StateOf(r, available, active); var here := r.tool in active && active[r.tool] != "";
      && (state == ManagerMissing <==> !available)
      && (state == Absent <==> available && !here)
      && (state == Unpinned <==> available && here && Strip(r.version) == "")
      && (state == Match <==> available && here && Strip(r.version) != "" && Satisfies(active[r.tool], r.version))
      && (state == Mismatch <==> available && here && Strip(r.version) != "" && !Satisfies(active[r.tool], r.version))
  {}

  lemma PlanLast(tools: seq<Requirement>, t: Requirement, active: Active, everywhere: bool)
    ensures PlanOf(tools + [t], active, everywhere)
      == PlanOf(tools, active, everywhere) + ActionsFor(t, active, everywhere)
  {
    PlanNext(tools + [t], |tools|, active, everywhere);
    assert (tools + [t])[..|tools| + 1] == tools + [t] && (tools + [t])[..|tools|] == tools;
  }

  lemma PlanLater(a: seq<Requirement>, b: seq<Requirement>, t: Requirement, active: Active, everywhere: bool)
    requires PlanOf(a + b, active, everywhere) == PlanOf(a, active, everywhere) + PlanOf(b, active, everywhere)
    ensures PlanOf((a + b) + [t], active, everywhere)
      == PlanOf(a, active, everywhere) + PlanOf(b + [t], active, everywhere)
  {
    PlanLast(a + b, t, active, everywhere);
    PlanLast(b, t, active, everywhere);
    ConcatAssociates(PlanOf(a, active, everywhere), PlanOf(b, active, everywhere), ActionsFor(t, active, everywhere));
  }

  /** The plan goes through the tools in order. */
  lemma {:induction false} PlanInOrder(a: seq<Requirement>, b: seq<Requirement>, active: Active, everywhere: bool)
    ensures PlanOf(a + b, active, everywhere) == PlanOf(a, active, everywhere) + PlanOf(b, active, everywhere)
  {
    if b == [] {
      assert a + b == a;
    } else {
      var init, t := b[..|b| - 1], b[|b| - 1];
      assert b == init + [t] && a + b == (a + init) + [t];
      PlanInOrder(a, init, active, everywhere);
      PlanLater(a, init, t, active, everywhere);
    }
  }

  /** For one tool: nothing without a pin or when the pin is met; otherwise the pinned version is used, for
      the repository only or everywhere, after installing it when none is active. */
  lemma PlanForOne(t: Requirement, active: Active, everywhere: bool)
    ensures var plan := PlanOf([t], active, everywhere);
      var here := t.tool in active && active[t.tool] != "";
      var use := Action(UseVersion(t.tool, t.version, everywhere), if everywhere then Global else Local);
      && (Strip(t.version) == "" || (here && Satisfies(active[t.tool], t.version)) ==> plan == [])
      && (Strip(t.version) != "" && here && !Satisfies(active[t.tool], t.version) ==> plan == [use])
      && (Strip(t.version) != "" && !here ==> plan == [Action(InstallVersion(t.tool, t.version), Install), use])
  {
    assert [t][..0] == [] && PlanOf([], active, everywhere) == [];
  }

  // ---------------------------------------------------------------------------------------------
  // The manager
  // ---------------------------------------------------------------------------------------------

  predicate LeavesOthers(tool: string, before: Active, after: Active) { after - {tool} == before - {tool} }

  /** What a successful command of a faithful manager does: it touches no tool but its own, and using a
      version activates one that satisfies it. Installing may or may not activate what it installs. */
  predicate Honoured(c: Command, before: Active, after: Active) {
    && LeavesOthers(c.tool, before, after)
    && (c.UseVersion? ==> Current(after, c.tool) != "" && Satisfies(Current(after, c.tool), c.version))
  }

  /** Any version manager: what a command does to the active versions is open, except that a faithful
      one honours the commands it reports as successful. */
  class Manager {
    const available: bool
    const faithful: bool
    var active: Active
    var ran: seq<Command>
    ghost var codes: seq<int>

    constructor (available: bool, faithful: bool, active: Active)
      ensures this.available == available && this.faithful == faithful && this.active == active
      ensures ran == [] && codes == []
    {
      this.available, this.faithful, this.active, this.ran, this.codes := available, faithful, active, [], [];
    }

    method Run(c: Command) returns (code: int)
      modifies this
      ensures ran == old(ran) + [c] && codes == old(codes) + [code]
      ensures !available ==> code == 127 && active == old(active)
      ensures available && faithful && code == 0 ==> Honoured(c, old(active), active)
    {
      ran := ran + [c];
      if !available {
        codes := codes + [127];
        return 127;
      }
      var before := active;
      active := *;
      code := *;
      if faithful && code == 0 && !Honoured(c, before, active) {
        code := 1;
      }
      codes := codes + [code];
    }
  }

  // ---------------------------------------------------------------------------------------------
  // Applying a switch
  // ---------------------------------------------------------------------------------------------

  predicate NeedsApproval(plan: seq<Action>) { exists a :: a in plan && RequiresApproval(a) }

  function Commands(plan: seq<Action>): (r: seq<Command>)
    ensures |r| == |plan| && forall i :: 0 <= i < |r| ==> r[i] == plan[i].command
  {
    seq(|plan|, i requires 0 <= i < |plan| => plan[i].command)
  }

  /** The cases in which the switch runs nothing. */
  predicate Held(tools: seq<Requirement>, available: bool, plan: seq<Action>, approve: bool) {
    tools == [] || !available || plan == [] || (NeedsApproval(plan) && !approve)
  }

  /** `n` further commands were answered, and `ok` says whether all of them with exit code 0. */
  ghost predicate Answered(before: seq<int>, after: seq<int>, n: nat, ok: bool) {
    before <= after && |after| == |before| + n && (ok <==> AllZero(after[|before|..]))
  }

  lemma AnsweredNext(before: seq<int>, after: seq<int>, n: nat, ok: bool, code: int)
    requires Answered(before, after, n, ok)
    ensures Answered(before, after + [code], n + 1, ok && code == 0)
  {
    var codes := after[|before|..];
    assert (after + [code])[|before|..] == codes + [code];
    assert code in codes + [code];
    assert forall c :: c in codes ==> c in codes + [code];
  }

  ghost predicate AllZero(codes: seq<int>) { forall c :: c in codes ==> c == 0 }

  /** Runs the whole plan or nothing, and reports success exactly when every command exits with 0.
      Without approval a plan with any gated action issues no command
      at all, whatever the manager. With a faithful manager a switch that succeeds leaves every pinned
      tool matched, and a second plan is empty. */
  method ApplySwitch(manifests: seq<seq<Requirement>>, weapons: Option<seq<string>>, toolOf: map<string, string>,
                     versionOf: string -> string, approve: bool, everywhere: bool, mgr: Manager)
    returns (ok: bool)
    modifies mgr
    ensures var loadout := if weapons == None then None else Some(WeaponTools(weapons.value, toolOf, versionOf));
      var tools := Profile(manifests, loadout);
      var plan := PlanOf(tools, old(Known(mgr)), everywhere);
      && (Held(tools, mgr.available, plan, approve) ==>
            && mgr.ran == old(mgr.ran) && mgr.active == old(mgr.active)
            && (ok <==> tools != [] && mgr.available && plan == []))
      && (!Held(tools, mgr.available, plan, approve) ==>
            mgr.ran == old(mgr.ran) + Commands(plan) && Answered(old(mgr.codes), mgr.codes, |plan|, ok))
      && (ok && mgr.faithful ==>
            && (forall t :: t in tools && Pinned(t) ==> StateOf(t, mgr.available, mgr.active) == Match)
            && PlanOf(tools, Known(mgr), everywhere) == [])
    ensures ok && mgr.faithful ==> PinsMet(Flatten(manifests), mgr.active)
    ensures !approve && GatedTool(manifests, weapons, toolOf, versionOf, old(mgr.active), everywhere) ==>
      !ok && mgr.ran == old(mgr.ran) && mgr.active == old(mgr.active)
  {
    var detected := DetectRequirements(manifests);
    var extra: Option<seq<Requirement>> := None;
    if weapons.Some? {
      var fromLoadout := ProfileForLoadout(weapons.value, toolOf, versionOf);
      extra := Some(fromLoadout);
    }
    ghost var loadout := if weapons == None then None else Some(WeaponTools(weapons.value, toolOf, versionOf));
    ProfileListsToolsOnce(manifests, loadout);
    ghost var gated := GatedTool(manifests, weapons, toolOf, versionOf, mgr.active, everywhere);
    if gated && mgr.available { GatedNeedsApproval(manifests, weapons, toolOf, versionOf, mgr.active, everywhere); }
    ok := SwitchTools(Merge(detected, extra), approve, everywhere, mgr);
    if ok && mgr.faithful { ManifestPinsMet(manifests, loadout, mgr.available, mgr.active); }
  }

  /** Each tool meets its first declaration, if that is a pin. */
  ghost predicate PinsMet(declared: seq<Requirement>, active: Active) {
    forall i: nat :: i < |declared| && DeclaredFirst(declared, declared[i], i) && Strip(declared[i].version) != "" ==>
      declared[i].tool in active && Satisfies(active[declared[i].tool], declared[i].version)
  }

  /** Some tool of the profile is pinned and not met, and is either not there at all or to be pinned
      everywhere. */
  ghost predicate GatedTool(manifests: seq<seq<Requirement>>, weapons: Option<seq<string>>, toolOf: map<string, string>,
                            versionOf: string -> string, active: Active, everywhere: bool)
  {
    var loadout := if weapons == None then None else Some(WeaponTools(weapons.value, toolOf, versionOf));
    exists t :: t in Profile(manifests, loadout) && Strip(t.version) != "" && !Satisfied(t, active)
      && (everywhere || t.tool !in active || active[t.tool] == "")
  }

  lemma GatedNeedsApproval(manifests: seq<seq<Requirement>>, weapons: Option<seq<string>>, toolOf: map<string, string>,
                           versionOf: string -> string, active: Active, everywhere: bool)
    requires GatedTool(manifests, weapons, toolOf, versionOf, active, everywhere)
    ensures var loadout := if weapons == None then None else Some(WeaponTools(weapons.value, toolOf, versionOf));
      NeedsApproval(PlanOf(Profile(manifests, loadout), active, everywhere))
  {
    var loadout := if weapons == None then None else Some(WeaponTools(weapons.value, toolOf, versionOf));
    NeedsApprovalIff(Profile(manifests, loadout), active, everywhere);
  }

  lemma ManifestPinsMet(manifests: seq<seq<Requirement>>, loadout: Option<seq<Requirement>>, available: bool,
                        active: Active)
    requires forall t :: t in Profile(manifests, loadout) && Pinned(t) ==> StateOf(t, available, active) == Match
    ensures PinsMet(Flatten(manifests), active)
  {
    var declared := Flatten(manifests);
    forall i: nat | i < |declared| && DeclaredFirst(declared, declared[i], i) && Pinned(declared[i])
      ensures declared[i].tool in active && Satisfies(active[declared[i].tool], declared[i].version)
    {
      RepositoryWins(manifests, loadout, declared[i]);
      StatesMean(declared[i], available, active);
    }
  }

  method SwitchTools(tools: seq<Requirement>, approve: bool, everywhere: bool, mgr: Manager) returns (ok: bool)
    requires OnePerTool(tools)
    modifies mgr
    ensures var plan := PlanOf(tools, old(Known(mgr)), everywhere);
      && (Held(tools, mgr.available, plan, approve) ==>
            && mgr.ran == old(mgr.ran) && mgr.active == old(mgr.active)
            && (ok <==> tools != [] && mgr.available && plan == []))
      && (!Held(tools, mgr.available, plan, approve) ==>
            mgr.ran == old(mgr.ran) + Commands(plan) && Answered(old(mgr.codes), mgr.codes, |plan|, ok))
    ensures ok && mgr.faithful ==>
      && (forall t :: t in tools && Pinned(t) ==> StateOf(t, mgr.available, mgr.active) == Match)
      && PlanOf(tools, Known(mgr), everywhere) == []
  {
    var plan := PlanSwitch(tools, mgr, everywhere);
    if tools == [] || !mgr.available {
      return false;
    }
    PlanCovers(tools, mgr.active, everywhere);
    if plan == [] {
      SatisfiedNeedsNoPlan(tools, mgr.active, everywhere);
      return true;
    }
    if NeedsApproval(plan) && !approve {
      return false;
    }
    ok := RunPlan(tools, plan, approve, everywhere, mgr);
    if ok && mgr.faithful { SatisfiedNeedsNoPlan(tools, mgr.active, everywhere); }
  }

  lemma PlanAt(plan: seq<Action>, i: nat)
    requires i < |plan|
    ensures plan[i..] == [plan[i]] + plan[i + 1..]
    ensures Commands(plan)[..i + 1] == Commands(plan)[..i] + [plan[i].command]
    ensures RequiresApproval(plan[i]) ==> NeedsApproval(plan)
  {}

  /** Runs the actions of a plan that may run; it succeeds when every command reports success. */
  method RunPlan(ghost tools: seq<Requirement>, plan: seq<Action>, approve: bool, ghost everywhere: bool, mgr: Manager)
    returns (ok: bool)
    requires OnePerTool(tools) && mgr.available && (NeedsApproval(plan) ==> approve)
    modifies mgr
    ensures mgr.ran == old(mgr.ran) + Commands(plan) && Answered(old(mgr.codes), mgr.codes, |plan|, ok)
    ensures ok && mgr.faithful && Covered(tools, old(mgr.active), plan, everywhere) ==>
      Covered(tools, mgr.active, [], everywhere)
  {
    ok := true;
    ghost var covered := Covered(tools, mgr.active, plan, everywhere);
    assert plan[0..] == plan;
    for i := 0 to |plan|
      invariant mgr.ran == old(mgr.ran) + Commands(plan)[..i] && Answered(old(mgr.codes), mgr.codes, i, ok)
      invariant ok && mgr.faithful && covered ==> Covered(tools, mgr.active, plan[i..], everywhere)
    {
      var a := plan[i];
      PlanAt(plan, i);
      if RequiresApproval(a) && !approve {
        assert false;
      }
      ok := RunAction(tools, a, plan[i + 1..], everywhere, old(mgr.codes), i, ok, mgr);
    }
    assert plan[|plan|..] == [];
    assert Commands(plan)[..|plan|] == Commands(plan);
  }

  /** Runs one action after `n` others. `codes` were the exit codes before those, and `fine` says that they
      all succeeded. */
  method RunAction(ghost tools: seq<Requirement>, a: Action, ghost ahead: seq<Action>, ghost everywhere: bool,
                   ghost codes: seq<int>, ghost n: nat, fine: bool, mgr: Manager)
    returns (ok: bool)
    requires OnePerTool(tools) && mgr.available && Answered(codes, mgr.codes, n, fine)
    modifies mgr
    ensures mgr.ran == old(mgr.ran) + [a.command] && Answered(codes, mgr.codes, n + 1, ok) && (ok ==> fine)
    ensures ok && mgr.faithful && Covered(tools, old(mgr.active), [a] + ahead, everywhere) ==>
      Covered(tools, mgr.active, ahead, everywhere)
  {
    ghost var before := mgr.active;
    var code := mgr.Run(a.command);
    AnsweredNext(codes, old(mgr.codes), n, fine, code);
    if code == 0 && mgr.faithful && Covered(tools, before, [a] + ahead, everywhere) {
      HonouredKeepsCovered(tools, before, mgr.active, a, ahead, everywhere);
    }
    return fine && code == 0;
  }

  predicate UseOf(a: Action, t: Requirement, everywhere: bool) {
    a.command == UseVersion(t.tool, t.version, everywhere)
  }

  /** A use of this tool is in the plan. */
  predicate HasUse(plan: seq<Action>, tool: string) {
    exists a :: a in plan && a.command.UseVersion? && a.command.tool == tool
  }

  /** After each installation the plan uses the tool it installs. */
  predicate Followed(plan: seq<Action>) {
    plan == [] || ((plan[0].command.InstallVersion? ==> HasUse(plan[1..], plan[0].command.tool)) && Followed(plan[1..]))
  }

  lemma HasUseAppend(a: seq<Action>, b: seq<Action>, tool: string)
    requires HasUse(a, tool)
    ensures HasUse(a + b, tool)
  {
    var x :| x in a && x.command.UseVersion? && x.command.tool == tool;
    assert x in a + b;
  }

  lemma {:induction false} FollowedAppend(a: seq<Action>, b: seq<Action>)
    requires Followed(a) && Followed(b)
    ensures Followed(a + b)
  {
    if a == [] {
      assert a + b == b;
    } else {
      FollowedAppend(a[1..], b);
      assert (a + b)[1..] == a[1..] + b;
      if a[0].command.InstallVersion? { HasUseAppend(a[1..], b, a[0].command.tool); }
    }
  }

  lemma ActionsFollowed(r: Requirement, active: Active, everywhere: bool)
    ensures Followed(ActionsFor(r, active, everywhere))
  {
    var plan := ActionsFor(r, active, everywhere);
    if plan != [] {
      var use := plan[|plan| - 1];
      assert use.command == UseVersion(r.tool, r.version, everywhere);
      assert Followed([use]) by { assert [use][1..] == []; }
      if |plan| == 2 {
        assert plan[1..] == [use] && use in plan[1..];
        assert HasUse(plan[1..], r.tool);
      } else {
        assert plan == [use];
      }
    }
  }

  lemma {:induction false} PlanFollowed(tools: seq<Requirement>, active: Active, everywhere: bool)
    ensures Followed(PlanOf(tools, active, everywhere))
  {
    if tools != [] {
      var n := |tools| - 1;
      PlanFollowed(tools[..n], active, everywhere);
      ActionsFollowed(tools[n], active, everywhere);
      FollowedAppend(PlanOf(tools[..n], active, everywhere), ActionsFor(tools[n], active, everywhere));
    }
  }

  /** The plan uses versions only as pinned. */
  ghost predicate UsesPins(tools: seq<Requirement>, plan: seq<Action>, everywhere: bool) {
    forall a :: a in plan && a.command.UseVersion? ==>
      exists t :: t in tools && Pinned(t) && UseOf(a, t, everywhere)
  }

  /** Every pinned tool is satisfied or still has its pin ahead in the plan; the plan ahead uses versions
      only as pinned, and uses every tool that it installs. */
  ghost predicate Covered(tools: seq<Requirement>, active: Active, ahead: seq<Action>, everywhere: bool) {
    && (forall t :: t in tools && Pinned(t) ==> CoveredTool(t, active, ahead, everywhere))
    && UsesPins(tools, ahead, everywhere) && Followed(ahead)
  }

  lemma {:induction false} PlanHasPin(tools: seq<Requirement>, active: Active, everywhere: bool, r: Requirement)
    requires r in tools && Pinned(r) && !Satisfied(r, active)
    ensures exists a :: a in PlanOf(tools, active, everywhere) && UseOf(a, r, everywhere)
  {
    var n := |tools| - 1;
    assert tools == tools[..n] + [tools[n]];
    if r in tools[..n] {
      PlanHasPin(tools[..n], active, everywhere, r);
      var a :| a in PlanOf(tools[..n], active, everywhere) && UseOf(a, r, everywhere);
      assert a in PlanOf(tools, active, everywhere);
    } else {
      var more := ActionsFor(r, active, everywhere);
      assert more[|more| - 1] in more && UseOf(more[|more| - 1], r, everywhere);
      assert more[|more| - 1] in PlanOf(tools, active, everywhere);
    }
  }

  lemma {:induction false} PlanUsesPins(tools: seq<Requirement>, active: Active, everywhere: bool)
    ensures UsesPins(tools, PlanOf(tools, active, everywhere), everywhere)
  {
    if tools != [] {
      var n := |tools| - 1;
      assert tools == tools[..n] + [tools[n]];
      PlanUsesPins(tools[..n], active, everywhere);
      forall a | a in PlanOf(tools, active, everywhere) && a.command.UseVersion?
        ensures exists t :: t in tools && Pinned(t) && UseOf(a, t, everywhere)
      {
        if a in PlanOf(tools[..n], active, everywhere) {
          var t :| t in tools[..n] && Pinned(t) && UseOf(a, t, everywhere);
          assert t in tools;
        } else {
          assert a in ActionsFor(tools[n], active, everywhere) && UseOf(a, tools[n], everywhere);
        }
      }
    }
  }

  lemma PlanCovers(tools: seq<Requirement>, active: Active, everywhere: bool)
    ensures Covered(tools, active, PlanOf(tools, active, everywhere), everywhere)
  {
    PlanFollowed(tools, active, everywhere);
    PlanUsesPins(tools, active, everywhere);
    forall r | r in tools && Pinned(r) && !Satisfied(r, active)
      ensures exists a :: a in PlanOf(tools, active, everywhere) && UseOf(a, r, everywhere)
    {
      PlanHasPin(tools, active, everywhere, r);
    }
  }

  lemma HonouredElsewhere(t: Requirement, c: Command, before: Active, after: Active)
    requires Honoured(c, before, after) && c.tool != t.tool
    ensures Satisfied(t, after) <==> Satisfied(t, before)
  {
    var tool := t.tool;
    assert tool in before - {c.tool} <==> tool in after - {c.tool};
    assert Current(after, tool) == Current(before, tool);
  }

  lemma HonouredSatisfies(t: Requirement, a: Action, before: Active, after: Active, everywhere: bool)
    requires Honoured(a.command, before, after) && UseOf(a, t, everywhere)
    ensures Satisfied(t, after)
  {}

  ghost predicate CoveredTool(t: Requirement, active: Active, ahead: seq<Action>, everywhere: bool) {
    Satisfied(t, active) || exists a :: a in ahead && UseOf(a, t, everywhere)
  }

  lemma HonouredKeepsTool(tools: seq<Requirement>, before: Active, after: Active, first: Action, ahead: seq<Action>,
                          everywhere: bool, t: Requirement)
    requires OnePerTool(tools) && Covered(tools, before, [first] + ahead, everywhere)
    requires Honoured(first.command, before, after) && t in tools && Pinned(t)
    ensures CoveredTool(t, after, ahead, everywhere)
  {
    var plan := [first] + ahead;
    assert first in plan && plan[1..] == ahead;
    if first.command.tool != t.tool {
      HonouredElsewhere(t, first.command, before, after);
      assert CoveredTool(t, before, plan, everywhere);
      if !Satisfied(t, before) {
        var a :| a in plan && UseOf(a, t, everywhere);
        assert a in ahead;
      }
    } else if first.command.UseVersion? {
      var u :| u in tools && Pinned(u) && UseOf(first, u, everywhere);
      OneOfTool(tools, t, u);
      HonouredSatisfies(t, first, before, after, everywhere);
    } else {
      var a :| a in ahead && a.command.UseVersion? && a.command.tool == t.tool;
      assert a in plan;
      var u :| u in tools && Pinned(u) && UseOf(a, u, everywhere);
      OneOfTool(tools, t, u);
    }
  }

  lemma HonouredKeepsCovered(tools: seq<Requirement>, before: Active, after: Active, first: Action, ahead: seq<Action>,
                             everywhere: bool)
    requires OnePerTool(tools) && Covered(tools, before, [first] + ahead, everywhere)
    requires Honoured(first.command, before, after)
    ensures Covered(tools, after, ahead, everywhere)
  {
    forall t | t in tools && Pinned(t) ensures CoveredTool(t, after, ahead, everywhere) {
      HonouredKeepsTool(tools, before, after, first, ahead, everywhere, t);
    }
    assert forall a :: a in ahead ==> a in [first] + ahead;
    assert ([first] + ahead)[1..] == ahead;
  }

  lemma OneOfTool(tools: seq<Requirement>, t: Requirement, u: Requirement)
    requires OnePerTool(tools) && t in tools && u in tools && t.tool == u.tool
    ensures t == u
  {
    var i :| 0 <= i < |tools| && tools[i] == t;
    var j :| 0 <= j < |tools| && tools[j] == u;
    assert !DifferentTools(tools[i], tools[j]) && !DifferentTools(tools[j], tools[i]);
  }

  lemma {:induction false} SatisfiedNeedsNoPlan(tools: seq<Requirement>, active: Active, everywhere: bool)
    requires forall t :: t in tools && Pinned(t) ==> Satisfied(t, active)
    ensures PlanOf(tools, active, everywhere) == []
  {
    if tools != [] {
      assert tools == tools[..|tools| - 1] + [tools[|tools| - 1]];
      SatisfiedNeedsNoPlan(tools[..|tools| - 1], active, everywhere);
    }
  }

  /** Planning is empty exactly when every pinned tool verifies as matched. */
  lemma EmptyPlanIff(tools: seq<Requirement>, active: Active, everywhere: bool)
    ensures PlanOf(tools, active, everywhere) == [] <==>
      forall t :: t in tools && Pinned(t) ==> StateOf(t, true, active) == Match
  {
    PlanCovers(tools, active, everywhere);
    if forall t :: t in tools && Pinned(t) ==> StateOf(t, true, active) == Match {
      SatisfiedNeedsNoPlan(tools, active, everywhere);
    }
  }

  /** A plan needs approval exactly when some pinned, unsatisfied tool is absent or is to be pinned
      everywhere: repinning tools that are present, for the repository only, is free. */
  lemma {:induction false} NeedsApprovalIff(tools: seq<Requirement>, active: Active, everywhere: bool)
    ensures NeedsApproval(PlanOf(tools, active, everywhere)) <==>
      exists t :: t in tools && Pinned(t) && !Satisfied(t, active) && (everywhere || Current(active, t.tool) == "")
  {
    if tools != [] {
      var n := |tools| - 1;
      var t := tools[n];
      var before, more := PlanOf(tools[..n], active, everywhere), ActionsFor(t, active, everywhere);
      assert tools == tools[..n] + [t];
      NeedsApprovalIff(tools[..n], active, everywhere);
      assert NeedsApproval(before + more) <==> NeedsApproval(before) || NeedsApproval(more) by {
        assert forall a :: a in before + more <==> a in before || a in more;
      }
      GatedActions(t, active, everywhere);
    }
  }

  lemma GatedActions(t: Requirement, active: Active, everywhere: bool)
    ensures NeedsApproval(ActionsFor(t, active, everywhere)) <==>
      Pinned(t) && !Satisfied(t, active) && (everywhere || Current(active, t.tool) == "")
  {
    var more := ActionsFor(t, active, everywhere);
    if Pinned(t) && !Satisfied(t, active) {
      assert RequiresApproval(more[|more| - 1]) <==> everywhere;
      if Current(active, t.tool) == "" { assert RequiresApproval(more[0]); }
      if everywhere { assert more[|more| - 1] in more; }
    }
  }
}
