/** Choosing skills for a request
    (packages/hephaistos/src/hephaistos/resolver.py, lines 104-151 and 165-238). */
module Resolver {
  import opened Catalog
  import opened Sequences
  import opened Sorting
  import opened Text
  import opened Wrappers

  const EXCLUDE_MARKERS := ["제외", "빼고", "말고", "없이", "제거", "exclude", "skip", "no ", "not "]

  /** What was inferred from a request; an empty string means nothing was. `blob` is the request in
      lower case. */
  datatype Query = Query(domain: string, language: string, framework: string, topic: string, blob: string)

  // ---------------------------------------------------------------------------------------------
  // Judging one skill
  // ---------------------------------------------------------------------------------------------

  function CountIn(needles: seq<string>, blob: string): nat {
    if needles == [] then 0 else (if Contains(blob, needles[0]) then 1 else 0) + CountIn(needles[1..], blob)
  }

  predicate NonEmpty(s: string) { s != "" }

  function SignalScore(sk: Skill, blob: string): nat {
    CountIn(Select(sk.signals, NonEmpty), blob)
  }

  function Matches(sk: Skill, q: Query): nat {
    (if q.domain != "" && q.domain in sk.domains then 2 else 0)
    + (if q.language != "" && q.language in sk.languages then 2 else 0)
    + (if q.framework != "" && q.framework in sk.frameworks then 3 else 0)
    + (if q.topic != "" && q.topic in sk.topics then 4 else 0)
  }

  function ScoreOf(sk: Skill, q: Query): nat {
    Matches(sk, q) + SignalScore(sk, q.blob) + CountIn(sk.topics, q.blob)
  }

  datatype Route = LanguageGate | DomainGate | ProjectFact | LoadoutScope

  datatype Verdict = Candidate(score: nat) | Rejected(route: Route) | Passed

  function Judge(sk: Skill, q: Query): Verdict {
    if q.language != "" && sk.languages != [] && q.language !in sk.languages then
      if q.domain in sk.domains || SignalScore(sk, q.blob) > 0 then Rejected(LanguageGate) else Passed
    else
      var score := ScoreOf(sk, q);
      var languageBonus := if q.language != "" && q.language in sk.languages then 2 else 0;
      if score > 0 && q.domain != "" && sk.domains != [] && q.domain !in sk.domains && score - languageBonus <= 0 then
        Rejected(DomainGate)
      else if score > 0 then Candidate(score)
      else Passed
  }

  /** A skill that passes the gates never speaks only other languages than the one asked for, and one of
      another domain has earned its place on more than the language: a framework, a topic, or a signal or
      topic in the text. */
  lemma CandidatesEarnTheirPlace(sk: Skill, q: Query)
    requires Judge(sk, q).Candidate?
    ensures q.language != "" && sk.languages != [] ==> q.language in sk.languages
    ensures q.domain != "" && sk.domains != [] && q.domain !in sk.domains ==>
      || (q.framework != "" && q.framework in sk.frameworks) || (q.topic != "" && q.topic in sk.topics)
      || (exists s :: s in sk.signals && s != "" && Contains(q.blob, s))
      || (exists t :: t in sk.topics && Contains(q.blob, t))
  {
    CountPositive(Select(sk.signals, NonEmpty), q.blob);
    CountPositive(sk.topics, q.blob);
  }

  lemma {:induction false} CountPositive(needles: seq<string>, blob: string)
    ensures CountIn(needles, blob) > 0 <==> exists x :: x in needles && Contains(blob, x)
  {
    if needles != [] {
      assert needles == [needles[0]] + needles[1..];
      CountPositive(needles[1..], blob);
    }
  }

  // ---------------------------------------------------------------------------------------------
  // Project facts
  // ---------------------------------------------------------------------------------------------

  predicate IsExclusion(fact: string) { exists m :: m in EXCLUDE_MARKERS && Contains(fact, m) }

  predicate Mentions(fact: string, sk: Skill) {
    exists k :: k in [sk.id] + sk.signals + sk.topics && k != "" && Contains(fact, k)
  }

  /** The ids of the catalog a fact refers to. */
  function FactTargets(all: seq<Skill>, fact: string): (r: seq<string>)
    ensures forall id :: id in r <==> exists sk :: sk in all && sk.id == id && Mentions(fact, sk)
  {
    if all == [] then []
    else
      assert all == [all[0]] + all[1..];
      (if Mentions(fact, all[0]) then [all[0].id] else []) + FactTargets(all[1..], fact)
  }

  /** Some fact excludes this id. */
  ghost predicate Excludes(facts: seq<string>, all: seq<Skill>, id: string) {
    exists f :: f in facts && ExcludesBy(f, all, id)
  }

  ghost predicate ExcludesBy(fact: string, all: seq<Skill>, id: string) {
    Strip(fact) != "" && IsExclusion(Lower(Strip(fact))) && id in FactTargets(all, Lower(Strip(fact)))
  }

  /** Removes the first occurrence. */
  function Removed(s: seq<string>, x: string): (r: seq<string>)
    requires NoDuplicates(s)
    ensures forall y :: y in r <==> y in s && y != x
    ensures |r| <= |s|
  {
    if s == [] then []
    else
      assert s == [s[0]] + s[1..];
      NoDuplicatesCons(s[0], s[1..]);
      if s[0] == x then s[1..] else [s[0]] + Removed(s[1..], x)
  }

  /** Splits facts: exclusions drop the skills they refer to, selected or not. */
  method ApplyProjectFacts(selected: seq<string>, facts: seq<string>, all: seq<Skill>)
    returns (kept: seq<string>, excluded: seq<string>)
    requires NoDuplicates(selected)
    ensures kept == Kept(selected, excluded)
    ensures NoDuplicates(excluded) && forall id :: id in excluded <==> Excludes(facts, all, id)
  {
    kept, excluded := selected, [];
    KeptAll(selected);
    for i := 0 to |facts|
      invariant kept == Kept(selected, excluded)
      invariant NoDuplicates(excluded)
      invariant forall id :: id in excluded <==> Excludes(facts[..i], all, id)
    {
      assert facts[..i + 1] == facts[..i] + [facts[i]];
      ExcludesMore(facts[..i], facts[i], all);
      var fact := Lower(Strip(facts[i]));
      if Strip(facts[i]) == "" || !IsExclusion(fact) {
        continue;
      }
      kept, excluded := DropTargets(selected, kept, excluded, FactTargets(all, fact));
    }
    assert facts[..|facts|] == facts;
  }

  /** Drops each target from what is kept and records it once. */
  method DropTargets(ghost selected: seq<string>, kept0: seq<string>, excluded0: seq<string>, targets: seq<string>)
    returns (kept: seq<string>, excluded: seq<string>)
    requires NoDuplicates(selected) && NoDuplicates(excluded0) && kept0 == Kept(selected, excluded0)
    ensures kept == Kept(selected, excluded)
    ensures NoDuplicates(excluded) && forall id :: id in excluded <==> id in excluded0 || id in targets
  {
    kept, excluded := kept0, excluded0;
    for j := 0 to |targets|
      invariant kept == Kept(selected, excluded)
      invariant NoDuplicates(excluded)
      invariant forall id :: id in excluded <==> id in excluded0 || id in targets[..j]
    {
      var t := targets[j];
      assert targets[..j + 1] == targets[..j] + [t];
      KeptLess(selected, excluded, t);
      if t in kept {
        kept := Removed(kept, t);
      }
      if t !in excluded {
        excluded := excluded + [t];
      }
    }
    assert targets[..|targets|] == targets;
  }

  /** The ids that are not excluded, in order. */
  function Kept(ids: seq<string>, excluded: seq<string>): (r: seq<string>)
    ensures forall id :: id in r <==> id in ids && id !in excluded
  {
    if ids == [] then []
    else
      assert ids == [ids[0]] + ids[1..];
      (if ids[0] in excluded then [] else [ids[0]]) + Kept(ids[1..], excluded)
  }

  lemma {:induction false} KeptAll(ids: seq<string>)
    ensures Kept(ids, []) == ids
  {
    if ids != [] {
      KeptAll(ids[1..]);
      assert ids == [ids[0]] + ids[1..];
    }
  }

  lemma {:induction false} KeptUnique(ids: seq<string>, excluded: seq<string>)
    requires NoDuplicates(ids)
    ensures NoDuplicates(Kept(ids, excluded))
  {
    if ids != [] {
      assert ids == [ids[0]] + ids[1..];
      NoDuplicatesCons(ids[0], ids[1..]);
      KeptUnique(ids[1..], excluded);
      NoDuplicatesCons(ids[0], Kept(ids[1..], excluded));
    }
  }

  lemma {:induction false} KeptLess(ids: seq<string>, excluded: seq<string>, t: string)
    requires NoDuplicates(ids)
    ensures NoDuplicates(Kept(ids, excluded))
    ensures Kept(ids, excluded + [t]) == Removed(Kept(ids, excluded), t)
    ensures t !in Kept(ids, excluded) ==> Removed(Kept(ids, excluded), t) == Kept(ids, excluded)
    ensures t in excluded ==> Removed(Kept(ids, excluded), t) == Kept(ids, excluded)
  {
    KeptUnique(ids, excluded);
    RemovedAbsent(Kept(ids, excluded), t);
    if ids != [] {
      assert ids == [ids[0]] + ids[1..];
      NoDuplicatesCons(ids[0], ids[1..]);
      KeptLess(ids[1..], excluded, t);
      var rest := Kept(ids[1..], excluded);
      if ids[0] !in excluded {
        assert Kept(ids, excluded) == [ids[0]] + rest && ([ids[0]] + rest)[1..] == rest;
        if ids[0] == t { RemovedAbsent(rest, t); }
      } else {
        assert Kept(ids, excluded) == rest;
      }
    }
  }

  lemma {:induction false} RemovedAbsent(s: seq<string>, x: string)
    requires NoDuplicates(s)
    ensures x !in s ==> Removed(s, x) == s
  {
    if s != [] {
      assert s == [s[0]] + s[1..];
      NoDuplicatesCons(s[0], s[1..]);
      RemovedAbsent(s[1..], x);
    }
  }

  lemma ExcludesMore(facts: seq<string>, fact: string, all: seq<Skill>)
    ensures forall id :: Excludes(facts + [fact], all, id) <==> Excludes(facts, all, id) || ExcludesBy(fact, all, id)
  {
    forall id ensures Excludes(facts + [fact], all, id) <==> Excludes(facts, all, id) || ExcludesBy(fact, all, id) {
      if Excludes(facts, all, id) {
        var f :| f in facts && ExcludesBy(f, all, id);
        assert f in facts + [fact];
      }
      if ExcludesBy(fact, all, id) { assert fact in facts + [fact]; }
    }
  }

  // ---------------------------------------------------------------------------------------------
  // Resolving
  // ---------------------------------------------------------------------------------------------

  datatype Scored = Scored(score: nat, skill: Skill)

  datatype Rejection = Rejection(id: string, route: Route)

  /** Higher score first, then by id. */
  predicate RanksBefore(a: Scored, b: Scored) {
    if a.score != b.score then a.score > b.score else LexLe(Codes(a.skill.id), Codes(b.skill.id))
  }

  function ScoredBy(v: Verdict, sk: Skill): seq<Scored> {
    match v case Candidate(score) => [Scored(score, sk)] case _ => []
  }

  function RejectedBy(v: Verdict, sk: Skill): seq<Rejection> {
    match v case Rejected(route) => [Rejection(sk.id, route)] case _ => []
  }

  function Candidates(all: seq<Skill>, q: Query): seq<Scored> {
    if all == [] then [] else ScoredBy(Judge(all[0], q), all[0]) + Candidates(all[1..], q)
  }

  function GateRejections(all: seq<Skill>, q: Query): seq<Rejection> {
    if all == [] then [] else RejectedBy(Judge(all[0], q), all[0]) + GateRejections(all[1..], q)
  }

  lemma {:induction false} CandidatesAre(all: seq<Skill>, q: Query, x: Scored)
    ensures x in Candidates(all, q) <==> x.skill in all && Judge(x.skill, q) == Candidate(x.score)
  {
    if all != [] {
      assert all == [all[0]] + all[1..];
      CandidatesAre(all[1..], q, x);
    }
  }

  lemma {:induction false} GateRejectionsAre(all: seq<Skill>, q: Query, x: Rejection)
    ensures x in GateRejections(all, q) <==>
      exists sk :: sk in all && sk.id == x.id && Judge(sk, q) == Rejected(x.route)
  {
    if all != [] {
      assert all == [all[0]] + all[1..];
      GateRejectionsAre(all[1..], q, x);
    }
  }

  lemma JudgeStep(scored: seq<Scored>, rejected: seq<Rejection>, all: seq<Skill>, q: Query)
    requires all != []
    ensures var v := Judge(all[0], q);
      && scored + Candidates(all, q) == (scored + ScoredBy(v, all[0])) + Candidates(all[1..], q)
      && rejected + GateRejections(all, q) == (rejected + RejectedBy(v, all[0])) + GateRejections(all[1..], q)
  {
    var v := Judge(all[0], q);
    ConcatAssociates(scored, ScoredBy(v, all[0]), Candidates(all[1..], q));
    ConcatAssociates(rejected, RejectedBy(v, all[0]), GateRejections(all[1..], q));
  }

  function Ids(scored: seq<Scored>): (r: seq<string>)
    ensures |r| == |scored| && forall i :: 0 <= i < |r| ==> r[i] == scored[i].skill.id
  {
    seq(|scored|, i requires 0 <= i < |scored| => scored[i].skill.id)
  }

  function FactRejections(excluded: seq<string>): (r: seq<Rejection>)
    ensures forall x :: x in r <==> x.route == ProjectFact && x.id in excluded
  {
    if excluded == [] then []
    else
      assert excluded == [excluded[0]] + excluded[1..];
      [Rejection(excluded[0], ProjectFact)] + FactRejections(excluded[1..])
  }

  datatype Plan = Plan(selected: seq<string>, excluded: seq<string>, rejected: seq<Rejection>)

  /** Some selected skill has a domain of this one. */
  predicate SharesDomain(c: seq<Skill>, selected: seq<string>, sk: Skill) {
    exists s :: s in c && s.id in selected && exists d :: d in s.domains && d in sk.domains
  }

  method JudgeAll(all: seq<Skill>, q: Query) returns (scored: seq<Scored>, rejected: seq<Rejection>)
    ensures scored == Candidates(all, q) && rejected == GateRejections(all, q)
  {
    scored, rejected := [], [];
    for i := 0 to |all|
      invariant scored + Candidates(all[i..], q) == Candidates(all, q)
      invariant rejected + GateRejections(all[i..], q) == GateRejections(all, q)
    {
      JudgeStep(scored, rejected, all[i..], q);
      assert all[i..][1..] == all[i + 1..];
      var v := Judge(all[i], q);
      scored := scored + ScoredBy(v, all[i]);
      rejected := rejected + RejectedBy(v, all[i]);
    }
  }

  /** The lookup of a blocked, unselected id finds a skill that shares a domain with a selected one. */
  ghost predicate ScopedOut(catalog: Catalog, kept: seq<string>, blocked: seq<string>, id: string)
    reads catalog
  {
    && id in blocked && id !in kept
    && catalog.Skill(id).Some? && SharesDomain(catalog.AllSkills(), kept, catalog.Skill(id).value)
  }

  lemma ScopedOutIff(catalog: Catalog, kept: seq<string>, blocked: seq<string>, id: string)
    requires catalog.Valid() && UniqueIds(catalog.seed)
    ensures ScopedOut(catalog, kept, blocked, id) <==> InScopeButBlocked(catalog.AllSkills(), kept, blocked, id)
  {
    var all := catalog.AllSkills();
    AllSkillsUnique(catalog.seed, catalog.overlay);
    LookupIsListed(catalog.seed, catalog.overlay, id);
    forall sk | sk in all && sk.id == id ensures catalog.Skill(id) == Some(sk) {
      assert HasId(all, id);
      SameId(all, sk, catalog.Skill(id).value);
    }
  }

  /** The blocked skills that would be plausible for the task and were not selected. */
  method ScopeOut(catalog: Catalog, kept: seq<string>, blocked: seq<string>) returns (rejected: seq<Rejection>)
    ensures forall x :: x in rejected <==> x.route == LoadoutScope && ScopedOut(catalog, kept, blocked, x.id)
  {
    rejected := [];
    for i := 0 to |blocked|
      invariant forall x :: x in rejected <==> x.route == LoadoutScope && ScopedOut(catalog, kept, blocked[..i], x.id)
    {
      assert blocked[..i + 1] == blocked[..i] + [blocked[i]];
      var spec := catalog.Skill(blocked[i]);
      if spec.Some? && SharesDomain(catalog.AllSkills(), kept, spec.value) && blocked[i] !in kept {
        rejected := rejected + [Rejection(blocked[i], LoadoutScope)];
      }
    }
    assert blocked[..|blocked|] == blocked;
  }

  /** `blocked` lists what the chosen loadout blocks. */
  method Resolve(catalog: Catalog, q: Query, facts: seq<string>, blocked: seq<string>) returns (plan: Plan)
    requires catalog.Valid() && UniqueIds(catalog.seed)
    ensures ResolvedPlan(catalog.AllSkills(), q, facts, blocked, plan)
  {
    var all := catalog.AllSkills();
    AllSkillsUnique(catalog.seed, catalog.overlay);
    var scored, rejected := JudgeAll(all, q);
    RankedIds(all, q);
    var kept, excluded := ApplyProjectFacts(Ids(StableSort(scored, RanksBefore)), facts, all);
    var scopedOut := ScopeOut(catalog, kept, blocked);
    forall id ensures ScopedOut(catalog, kept, blocked, id) <==> InScopeButBlocked(all, kept, blocked, id) {
      ScopedOutIff(catalog, kept, blocked, id);
    }
    plan := Plan(kept, excluded, rejected + FactRejections(excluded) + scopedOut);
    PlanIsResolved(all, q, facts, blocked, plan);
  }

  /** Every candidate that passed the gates is selected or excluded by a fact, the selected ones in score
      order; nothing selected is excluded or rejected by any route; the rejections recorded are exactly
      those with a cause. */
  ghost predicate ResolvedPlan(all: seq<Skill>, q: Query, facts: seq<string>, blocked: seq<string>, plan: Plan) {
    && NoDuplicates(plan.selected)
    && (forall id :: id in plan.excluded <==> Excludes(facts, all, id))
    && (forall id :: id in plan.selected <==> IsCandidate(all, q, id) && id !in plan.excluded)
    && InScoreOrder(all, q, plan.selected)
    && (forall x :: x in plan.rejected ==> x.id !in plan.selected)
    && (forall x :: x in plan.rejected <==> HasCause(all, q, blocked, plan, x))
  }

  /** What a rejection of each route means. */
  ghost predicate HasCause(all: seq<Skill>, q: Query, blocked: seq<string>, plan: Plan, x: Rejection) {
    match x.route
    case ProjectFact => x.id in plan.excluded
    case LoadoutScope => InScopeButBlocked(all, plan.selected, blocked, x.id)
    case _ => exists sk :: sk in all && sk.id == x.id && Judge(sk, q) == Rejected(x.route)
  }

  /** A blocked skill of the catalog that was not selected and shares a domain with one that was. */
  ghost predicate InScopeButBlocked(all: seq<Skill>, selected: seq<string>, blocked: seq<string>, id: string) {
    id in blocked && id !in selected && exists sk :: sk in all && sk.id == id && SharesDomain(all, selected, sk)
  }

  ghost predicate IsCandidate(all: seq<Skill>, q: Query, id: string) {
    exists sk :: sk in all && sk.id == id && Judge(sk, q).Candidate?
  }

  ghost predicate RanksAs(all: seq<Skill>, q: Query, id: string, x: Scored) {
    x.skill in all && x.skill.id == id && Judge(x.skill, q) == Candidate(x.score)
  }

  ghost predicate InScoreOrder(all: seq<Skill>, q: Query, ids: seq<string>) {
    forall i, j, x, y | 0 <= i < j < |ids| && RanksAs(all, q, ids[i], x) && RanksAs(all, q, ids[j], y) ::
      RanksBefore(x, y)
  }

  function Ranked(all: seq<Skill>, q: Query): seq<Scored> {
    StableSort(Candidates(all, q), RanksBefore)
  }

  lemma RanksBeforePreorder()
    ensures Preorder(RanksBefore)
  {
    forall a, b ensures RanksBefore(a, b) || RanksBefore(b, a) { LexTotal(Codes(a.skill.id), Codes(b.skill.id)); }
    forall a, b, c | RanksBefore(a, b) && RanksBefore(b, c) ensures RanksBefore(a, c) {
      if a.score == b.score == c.score { LexTransitive(Codes(a.skill.id), Codes(b.skill.id), Codes(c.skill.id)); }
    }
  }

  predicate ScoredIdsDiffer(a: Scored, b: Scored) { a.skill.id != b.skill.id }

  lemma {:induction false} CandidatesUnique(all: seq<Skill>, q: Query)
    requires UniqueIds(all)
    ensures Pairwise(Candidates(all, q), ScoredIdsDiffer)
  {
    if all != [] {
      assert all == [all[0]] + all[1..];
      PairwiseCons(all[0], all[1..], IdsDiffer);
      CandidatesUnique(all[1..], q);
      var first, rest := ScoredBy(Judge(all[0], q), all[0]), Candidates(all[1..], q);
      forall x, y | x in first && y in rest ensures ScoredIdsDiffer(x, y) { CandidatesAre(all[1..], q, y); }
      PairwiseAppend(first, rest, ScoredIdsDiffer);
    }
  }

  lemma RankedAre(all: seq<Skill>, q: Query)
    requires UniqueIds(all)
    ensures var r := Ranked(all, q);
      && SortedBy(r, RanksBefore) && Pairwise(r, ScoredIdsDiffer)
      && (forall x :: x in r <==> RanksAs(all, q, x.skill.id, x))
  {
    var cs := Candidates(all, q);
    CandidatesUnique(all, q);
    StableSortKeepsPairwise(cs, RanksBefore, ScoredIdsDiffer);
    RanksBeforePreorder();
    StableSortSorts(cs, RanksBefore);
    SameElements(cs, RanksBefore);
    forall x ensures x in cs <==> RanksAs(all, q, x.skill.id, x) { CandidatesAre(all, q, x); }
  }

  lemma RankedIds(all: seq<Skill>, q: Query)
    requires UniqueIds(all)
    ensures var ids := Ids(Ranked(all, q)); NoDuplicates(ids) && forall id :: id in ids <==> IsCandidate(all, q, id)
  {
    var r := Ranked(all, q);
    RankedAre(all, q);
    forall i, j | 0 <= i < j < |r| ensures Ids(r)[i] != Ids(r)[j] { assert ScoredIdsDiffer(r[i], r[j]); }
    forall id ensures id in Ids(r) <==> IsCandidate(all, q, id) { RankedIdIff(all, q, id); }
  }

  lemma RankedIdIff(all: seq<Skill>, q: Query, id: string)
    requires UniqueIds(all)
    ensures id in Ids(Ranked(all, q)) <==> IsCandidate(all, q, id)
  {
    var r := Ranked(all, q);
    RankedAre(all, q);
    if id in Ids(r) {
      var k :| 0 <= k < |r| && Ids(r)[k] == id;
      assert RanksAs(all, q, id, r[k]);
    }
    if IsCandidate(all, q, id) {
      var sk :| sk in all && sk.id == id && Judge(sk, q).Candidate?;
      var x := Scored(Judge(sk, q).score, sk);
      assert x in r by { assert RanksAs(all, q, id, x); }
      var k :| 0 <= k < |r| && r[k] == x;
      assert Ids(r)[k] == id;
    }
  }

  /** Two kept ids in order come from two positions in order. */
  lemma {:induction false} KeptPositions(ids: seq<string>, excluded: seq<string>, i: nat, j: nat)
    returns (k: nat, l: nat)
    requires i < j < |Kept(ids, excluded)|
    ensures k < l < |ids| && ids[k] == Kept(ids, excluded)[i] && ids[l] == Kept(ids, excluded)[j]
  {
    var rest := Kept(ids[1..], excluded);
    if ids[0] in excluded {
      k, l := KeptPositions(ids[1..], excluded, i, j);
      k, l := k + 1, l + 1;
    } else if i == 0 {
      assert rest[j - 1] in ids[1..];
      var m :| 0 <= m < |ids[1..]| && ids[1..][m] == rest[j - 1];
      k, l := 0, m + 1;
    } else {
      k, l := KeptPositions(ids[1..], excluded, i - 1, j - 1);
      k, l := k + 1, l + 1;
    }
  }

  lemma KeptInScoreOrder(all: seq<Skill>, q: Query, excluded: seq<string>)
    requires UniqueIds(all)
    ensures InScoreOrder(all, q, Kept(Ids(Ranked(all, q)), excluded))
  {
    RankedAre(all, q);
    var r := Ranked(all, q);
    var ids := Kept(Ids(r), excluded);
    forall i, j, x, y | 0 <= i < j < |ids| && RanksAs(all, q, ids[i], x) && RanksAs(all, q, ids[j], y)
      ensures RanksBefore(x, y)
    {
      var k, l := KeptPositions(Ids(r), excluded, i, j);
      assert RanksAs(all, q, ids[i], r[k]) && RanksAs(all, q, ids[j], r[l]);
      SameId(all, r[k].skill, x.skill);
      SameId(all, r[l].skill, y.skill);
      assert RanksBefore(r[k], r[l]);
    }
  }

  /** A gate rejection is never of a candidate, because each id is listed once. */
  lemma GateRejectedIsNoCandidate(all: seq<Skill>, q: Query, x: Rejection)
    requires UniqueIds(all) && x in GateRejections(all, q)
    ensures !IsCandidate(all, q, x.id)
  {
    GateRejectionsAre(all, q, x);
    var sk :| sk in all && sk.id == x.id && Judge(sk, q) == Rejected(x.route);
    forall other | other in all && other.id == x.id ensures !Judge(other, q).Candidate? {
      SameId(all, sk, other);
    }
  }

  lemma PlanIsResolved(all: seq<Skill>, q: Query, facts: seq<string>, blocked: seq<string>, plan: Plan)
    requires UniqueIds(all)
    requires plan.selected == Kept(Ids(Ranked(all, q)), plan.excluded)
    requires forall id :: id in plan.excluded <==> Excludes(facts, all, id)
    requires forall x :: x in plan.rejected <==>
      || x in GateRejections(all, q) || x in FactRejections(plan.excluded)
      || (x.route == LoadoutScope && InScopeButBlocked(all, plan.selected, blocked, x.id))
    ensures ResolvedPlan(all, q, facts, blocked, plan)
  {
    RankedIds(all, q);
    KeptUnique(Ids(Ranked(all, q)), plan.excluded);
    KeptInScoreOrder(all, q, plan.excluded);
    forall x | x in plan.rejected ensures x.id !in plan.selected {
      if x in GateRejections(all, q) { GateRejectedIsNoCandidate(all, q, x); }
    }
    forall x ensures x in plan.rejected <==> HasCause(all, q, blocked, plan, x) {
      GateRejectionsAre(all, q, x);
      GatesAreTwo(all, q, x);
    }
  }

  lemma GatesAreTwo(all: seq<Skill>, q: Query, x: Rejection)
    ensures x in GateRejections(all, q) ==> x.route == LanguageGate || x.route == DomainGate
  {
    GateRejectionsAre(all, q, x);
    if x in GateRejections(all, q) {
      var sk :| sk in all && sk.id == x.id && Judge(sk, q) == Rejected(x.route);
    }
  }
}
