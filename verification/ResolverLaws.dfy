/** When a skill is chosen, gated or excluded
    (packages/hephaistos/src/hephaistos/resolver.py, lines 104-151 and 165-238), said of the request, the
    facts and the skill itself. */
module ResolverLaws {
  import opened Catalog
  import opened Resolver
  import opened Sequences
  import opened Text

  /** How many of the strings occur in the text; the empty ones count only if `blank`. */
  ghost function Found(needles: seq<string>, text: string, blank: bool): nat {
    |FoundAt(needles, text, blank)|
  }

  ghost function FoundAt(needles: seq<string>, text: string, blank: bool): set<int> {
    set i | 0 <= i < |needles| && (blank || needles[i] != "") && Contains(text, needles[i])
  }

  lemma {:induction false} CountIsSelected(needles: seq<string>, text: string, keep: string -> bool,
                                           all: string -> bool)
    requires forall x :: all(x) <==> keep(x) && Contains(text, x)
    ensures CountIn(Select(needles, keep), text) == |Select(needles, all)|
  {
    if needles != [] {
      var rest := Select(needles[1..], keep);
      CountIsSelected(needles[1..], text, keep, all);
      if keep(needles[0]) {
        assert Select(needles, keep) == [needles[0]] + rest && ([needles[0]] + rest)[1..] == rest;
      } else {
        assert Select(needles, keep) == rest;
      }
    }
  }

  lemma CountIsFound(needles: seq<string>, text: string)
    ensures CountIn(needles, text) == Found(needles, text, true)
  {
    var any, all := (x: string) => true, (x: string) => Contains(text, x);
    SelectAll(needles, any);
    CountIsSelected(needles, text, any, all);
    SelectCounts(needles, all);
    assert Hits(needles, all) == FoundAt(needles, text, true);
  }

  lemma SignalsAreFound(signals: seq<string>, text: string)
    ensures CountIn(Select(signals, NonEmpty), text) == Found(signals, text, false)
  {
    var all := (x: string) => x != "" && Contains(text, x);
    CountIsSelected(signals, text, NonEmpty, all);
    SelectCounts(signals, all);
    assert Hits(signals, all) == FoundAt(signals, text, false);
  }

  // ---------------------------------------------------------------------------------------------
  // One skill
  // ---------------------------------------------------------------------------------------------

  /** What a skill scores for a request: 2 for its domain, 2 for its language, 3 for its framework, 4 for
      its topic, and one for each of its signals and topics that the text holds. */
  ghost function Points(sk: Skill, q: Query): nat {
    (if q.domain != "" && q.domain in sk.domains then 2 else 0)
    + (if q.language != "" && q.language in sk.languages then 2 else 0)
    + (if q.framework != "" && q.framework in sk.frameworks then 3 else 0)
    + (if q.topic != "" && q.topic in sk.topics then 4 else 0)
    + Found(sk.signals, q.blob, false) + Found(sk.topics, q.blob, true)
  }

  lemma ScoreIsPoints(sk: Skill, q: Query)
    ensures ScoreOf(sk, q) == Points(sk, q) && SignalScore(sk, q.blob) == Found(sk.signals, q.blob, false)
  {
    SignalsAreFound(sk.signals, q.blob);
    CountIsFound(sk.topics, q.blob);
  }

  predicate OtherLanguage(sk: Skill, q: Query) {
    q.language != "" && sk.languages != [] && q.language !in sk.languages
  }

  predicate OtherDomain(sk: Skill, q: Query) {
    q.domain != "" && sk.domains != [] && q.domain !in sk.domains
  }

  /** Nothing but the language of the request speaks for the skill. */
  ghost predicate LanguageOnly(sk: Skill, q: Query) {
    q.language != "" && q.language in sk.languages && Points(sk, q) == 2
  }

  /** A skill is a candidate exactly when it has points, is not for other languages only, and is not of
      another domain with nothing but the language to speak for it. Its score is its points. */
  lemma CandidateIff(sk: Skill, q: Query)
    ensures Judge(sk, q).Candidate? <==>
      !OtherLanguage(sk, q) && Points(sk, q) > 0 && !(OtherDomain(sk, q) && LanguageOnly(sk, q))
    ensures Judge(sk, q).Candidate? ==> Judge(sk, q).score == Points(sk, q)
  {
    ScoreIsPoints(sk, q);
  }

  /** A rejection is recorded at the language gate when the domain or a signal spoke for the skill, and at
      the domain gate when only the language did. */
  lemma GatesMean(sk: Skill, q: Query)
    ensures Judge(sk, q) == Rejected(LanguageGate) <==>
      OtherLanguage(sk, q) && (q.domain in sk.domains || Found(sk.signals, q.blob, false) > 0)
    ensures Judge(sk, q) == Rejected(DomainGate) <==>
      !OtherLanguage(sk, q) && OtherDomain(sk, q) && LanguageOnly(sk, q)
  {
    ScoreIsPoints(sk, q);
  }

  // ---------------------------------------------------------------------------------------------
  // The plan
  // ---------------------------------------------------------------------------------------------

  /** Of two selected skills the one with more points comes first, and of equal points the one whose id is
      less. */
  lemma MorePointsComeFirst(all: seq<Skill>, q: Query, facts: seq<string>, blocked: seq<string>, plan: Plan, i: nat,
                            j: nat, a: Skill, b: Skill)
    requires UniqueIds(all) && ResolvedPlan(all, q, facts, blocked, plan) && i < j < |plan.selected|
    requires a in all && a.id == plan.selected[i] && b in all && b.id == plan.selected[j]
    ensures Points(a, q) >= Points(b, q)
    ensures Points(a, q) == Points(b, q) ==> LexLe(Codes(a.id), Codes(b.id))
  {
    var x := SelectedRanks(all, q, facts, blocked, plan, i, a);
    var y := SelectedRanks(all, q, facts, blocked, plan, j, b);
    assert RanksBefore(x, y);
  }

  lemma SelectedRanks(all: seq<Skill>, q: Query, facts: seq<string>, blocked: seq<string>, plan: Plan, i: nat, a: Skill)
    returns (x: Scored)
    requires UniqueIds(all) && ResolvedPlan(all, q, facts, blocked, plan) && i < |plan.selected|
    requires a in all && a.id == plan.selected[i]
    ensures x == Scored(Points(a, q), a) && RanksAs(all, q, plan.selected[i], x)
  {
    assert plan.selected[i] in plan.selected && IsCandidate(all, q, a.id);
    var sk :| sk in all && sk.id == a.id && Judge(sk, q).Candidate?;
    SameId(all, sk, a);
    CandidateIff(a, q);
    x := Scored(Points(a, q), a);
  }

  /** A skill of the catalog is selected exactly when it is a candidate that no fact excludes. */
  lemma SelectedIff(all: seq<Skill>, q: Query, facts: seq<string>, blocked: seq<string>, plan: Plan, sk: Skill)
    requires UniqueIds(all) && ResolvedPlan(all, q, facts, blocked, plan) && sk in all
    ensures sk.id in plan.selected <==>
      && !OtherLanguage(sk, q) && Points(sk, q) > 0 && !(OtherDomain(sk, q) && LanguageOnly(sk, q))
      && !(exists f :: f in facts && IsExcludedBy(f, sk))
  {
    CandidateIff(sk, q);
    ExcludedIff(facts, all, sk);
    if IsCandidate(all, q, sk.id) {
      var other :| other in all && other.id == sk.id && Judge(other, q).Candidate?;
      SameId(all, other, sk);
    }
  }

  /** What each recorded rejection means, and that each with that meaning is recorded: a skill of another
      language that the domain or a signal spoke for, one of another domain with only the language to speak
      for it, one that a fact excludes, and one the loadout blocks that was not selected but shares a domain
      with one that was. */
  lemma RejectionsMean(all: seq<Skill>, q: Query, facts: seq<string>, blocked: seq<string>, plan: Plan, id: string)
    requires UniqueIds(all) && ResolvedPlan(all, q, facts, blocked, plan)
    ensures Rejection(id, LanguageGate) in plan.rejected <==>
      exists sk :: sk in all && sk.id == id && OtherLanguage(sk, q)
        && (q.domain in sk.domains || Found(sk.signals, q.blob, false) > 0)
    ensures Rejection(id, DomainGate) in plan.rejected <==>
      exists sk :: sk in all && sk.id == id && !OtherLanguage(sk, q) && OtherDomain(sk, q) && LanguageOnly(sk, q)
    ensures Rejection(id, LoadoutScope) in plan.rejected <==>
      && id in blocked && id !in plan.selected
      && exists sk, s, d :: sk in all && s in all && sk.id == id && s.id in plan.selected
                            && d in sk.domains && d in s.domains
  {
    assert forall route :: Rejection(id, route) in plan.rejected <==>
      HasCause(all, q, blocked, plan, Rejection(id, route));
    forall sk | sk in all && sk.id == id
      ensures Judge(sk, q) == Rejected(LanguageGate) <==>
        OtherLanguage(sk, q) && (q.domain in sk.domains || Found(sk.signals, q.blob, false) > 0)
      ensures Judge(sk, q) == Rejected(DomainGate) <==>
        !OtherLanguage(sk, q) && OtherDomain(sk, q) && LanguageOnly(sk, q)
    {
      GatesMean(sk, q);
    }
  }

  /** A rejection by a fact is recorded exactly for the skills that some fact excludes. */
  lemma FactRejectionsMean(all: seq<Skill>, q: Query, facts: seq<string>, blocked: seq<string>, plan: Plan, sk: Skill)
    requires UniqueIds(all) && ResolvedPlan(all, q, facts, blocked, plan) && sk in all
    ensures Rejection(sk.id, ProjectFact) in plan.rejected <==> exists f :: f in facts && IsExcludedBy(f, sk)
  {
    assert Rejection(sk.id, ProjectFact) in plan.rejected <==>
      HasCause(all, q, blocked, plan, Rejection(sk.id, ProjectFact));
    ExcludedIff(facts, all, sk);
  }

  /** A fact excludes a skill when it holds one of the words for leaving out and names the skill by its id,
      a signal or a topic, whatever the case. */
  ghost predicate IsExcludedBy(fact: string, sk: Skill) {
    var text := Lower(Strip(fact));
    && Strip(fact) != ""
    && (exists m :: m in ["제외", "빼고", "말고", "없이", "제거", "exclude", "skip", "no ", "not "] && Contains(text, m))
    && (exists k :: (k == sk.id || k in sk.signals || k in sk.topics) && k != "" && Contains(text, k))
  }

  lemma ExcludedIff(facts: seq<string>, all: seq<Skill>, sk: Skill)
    requires UniqueIds(all) && sk in all
    ensures Excludes(facts, all, sk.id) <==> exists f :: f in facts && IsExcludedBy(f, sk)
  {
    forall f ensures ExcludesBy(f, all, sk.id) <==> IsExcludedBy(f, sk) { ExcludedByIff(f, all, sk); }
    if Excludes(facts, all, sk.id) {
      var f :| f in facts && ExcludesBy(f, all, sk.id);
      assert IsExcludedBy(f, sk);
    }
    if exists f :: f in facts && IsExcludedBy(f, sk) {
      var f :| f in facts && IsExcludedBy(f, sk);
      assert ExcludesBy(f, all, sk.id);
    }
  }

  lemma ExcludedByIff(fact: string, all: seq<Skill>, sk: Skill)
    requires UniqueIds(all) && sk in all
    ensures ExcludesBy(fact, all, sk.id) <==> IsExcludedBy(fact, sk)
  {
    var text := Lower(Strip(fact));
    MentionsIff(text, sk);
    assert IsExclusion(text) <==>
      exists m :: m in ["제외", "빼고", "말고", "없이", "제거", "exclude", "skip", "no ", "not "] && Contains(text, m);
    if sk.id in FactTargets(all, text) {
      var other :| other in all && other.id == sk.id && Mentions(text, other);
      SameId(all, other, sk);
    }
  }

  lemma MentionsIff(text: string, sk: Skill)
    ensures Mentions(text, sk) <==>
      exists k :: (k == sk.id || k in sk.signals || k in sk.topics) && k != "" && Contains(text, k)
  {
    assert forall k :: k in [sk.id] + sk.signals + sk.topics <==> k == sk.id || k in sk.signals || k in sk.topics;
  }
}
