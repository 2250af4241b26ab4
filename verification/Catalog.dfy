/** The skill catalog with its overlay of promoted skills
    (packages/armory/src/armory/catalog.py, lines 482-532). */
module Catalog {
  import opened Sequences
  import opened Wrappers

  datatype Skill = Skill(id: string, name: string, domains: seq<string>, languages: seq<string>,
                         frameworks: seq<string>, topics: seq<string>, signals: seq<string>)

  predicate IdsDiffer(a: Skill, b: Skill) { a.id != b.id }

  ghost predicate UniqueIds(skills: seq<Skill>) { Pairwise(skills, IdsDiffer) }

  predicate HasId(skills: seq<Skill>, id: string) { exists s :: s in skills && s.id == id }

  /** The skills without one id, and without the ids of other skills. */
  function WithoutId(skills: seq<Skill>, id: string): (r: seq<Skill>)
    ensures forall s :: s in r <==> s in skills && s.id != id
  {
    if skills == [] then []
    else
      assert skills == [skills[0]] + skills[1..];
      (if skills[0].id == id then [] else [skills[0]]) + WithoutId(skills[1..], id)
  }

  function NotOverridden(skills: seq<Skill>, overlay: seq<Skill>): (r: seq<Skill>)
    ensures forall s :: s in r <==> s in skills && !HasId(overlay, s.id)
  {
    if skills == [] then []
    else
      assert skills == [skills[0]] + skills[1..];
      (if HasId(overlay, skills[0].id) then [] else [skills[0]]) + NotOverridden(skills[1..], overlay)
  }

  function Registered(overlay: seq<Skill>, spec: Skill): seq<Skill> {
    WithoutId(overlay, spec.id) + [spec]
  }

  /** The seed without overridden entries, then the overlay. */
  function AllSkillsOf(seed: seq<Skill>, overlay: seq<Skill>): seq<Skill> {
    if overlay == [] then seed else NotOverridden(seed, overlay) + overlay
  }

  function FirstById(skills: seq<Skill>, id: string): (r: Option<Skill>)
    ensures r == None <==> !HasId(skills, id)
    ensures r.Some? ==> r.value in skills && r.value.id == id
  {
    if skills == [] then None
    else
      assert skills == [skills[0]] + skills[1..];
      if skills[0].id == id then Some(skills[0]) else FirstById(skills[1..], id)
  }

  /** A dictionary built from a list: the last entry of an id wins. */
  function LastById(skills: seq<Skill>, id: string): (r: Option<Skill>)
    ensures r == None <==> !HasId(skills, id)
    ensures r.Some? ==> r.value in skills && r.value.id == id
  {
    if skills == [] then None
    else
      var n := |skills| - 1;
      assert skills == skills[..n] + [skills[n]];
      if skills[n].id == id then Some(skills[n]) else LastById(skills[..n], id)
  }

  function SkillOf(seed: seq<Skill>, overlay: seq<Skill>, id: string): Option<Skill> {
    match FirstById(overlay, id)
    case Some(s) => Some(s)
    case None => LastById(seed, id)
  }

  class Catalog {
    const seed: seq<Skill>
    var overlay: seq<Skill>

    ghost predicate Valid()
      reads this
    {
      UniqueIds(overlay)
    }

    constructor (seed: seq<Skill>)
      ensures Valid() && this.seed == seed && overlay == []
    {
      this.seed, this.overlay := seed, [];
    }

    method RegisterPromoted(spec: Skill)
      requires Valid()
      modifies this`overlay
      ensures Valid() && overlay == Registered(old(overlay), spec)
    {
      RegisteredUnique(overlay, spec);
      overlay := WithoutId(overlay, spec.id) + [spec];
    }

    method ClearOverlay()
      modifies this`overlay
      ensures Valid() && overlay == []
    {
      overlay := [];
    }

    function AllSkills(): seq<Skill>
      reads this
    {
      AllSkillsOf(seed, overlay)
    }

    function Skill(id: string): Option<Skill>
      reads this
    {
      SkillOf(seed, overlay, id)
    }
  }

  // ---------------------------------------------------------------------------------------------
  // Overlay runs
  // ---------------------------------------------------------------------------------------------

  lemma {:induction false} WithoutIdUnique(skills: seq<Skill>, id: string)
    requires UniqueIds(skills)
    ensures UniqueIds(WithoutId(skills, id))
  {
    if skills != [] {
      assert skills == [skills[0]] + skills[1..];
      PairwiseCons(skills[0], skills[1..], IdsDiffer);
      WithoutIdUnique(skills[1..], id);
      PairwiseCons(skills[0], WithoutId(skills[1..], id), IdsDiffer);
    }
  }

  lemma {:induction false} NotOverriddenUnique(skills: seq<Skill>, overlay: seq<Skill>)
    requires UniqueIds(skills)
    ensures UniqueIds(NotOverridden(skills, overlay))
  {
    if skills != [] {
      assert skills == [skills[0]] + skills[1..];
      PairwiseCons(skills[0], skills[1..], IdsDiffer);
      NotOverriddenUnique(skills[1..], overlay);
      PairwiseCons(skills[0], NotOverridden(skills[1..], overlay), IdsDiffer);
    }
  }

  lemma RegisteredUnique(overlay: seq<Skill>, spec: Skill)
    requires UniqueIds(overlay)
    ensures UniqueIds(Registered(overlay, spec))
  {
    WithoutIdUnique(overlay, spec.id);
    PairwiseAppend(WithoutId(overlay, spec.id), [spec], IdsDiffer);
  }

  datatype Change = Register(spec: Skill) | Clear

  function Changed(overlay: seq<Skill>, changes: seq<Change>): seq<Skill>
    decreases changes
  {
    if changes == [] then overlay
    else
      var next := match changes[0] case Register(spec) => Registered(overlay, spec) case Clear => [];
      Changed(next, changes[1..])
  }

  lemma {:induction false} ChangedUnique(overlay: seq<Skill>, changes: seq<Change>)
    requires UniqueIds(overlay)
    ensures UniqueIds(Changed(overlay, changes))
    decreases changes
  {
    if changes != [] {
      match changes[0] {
        case Register(spec) =>
          RegisteredUnique(overlay, spec);
          ChangedUnique(Registered(overlay, spec), changes[1..]);
        case Clear =>
          ChangedUnique([], changes[1..]);
      }
    }
  }

  lemma SameId(skills: seq<Skill>, a: Skill, b: Skill)
    requires UniqueIds(skills) && a in skills && b in skills && a.id == b.id
    ensures a == b
  {
    var i :| 0 <= i < |skills| && skills[i] == a;
    var j :| 0 <= j < |skills| && skills[j] == b;
    assert !IdsDiffer(skills[i], skills[j]) && !IdsDiffer(skills[j], skills[i]);
  }

  lemma AllSkillsUnique(seed: seq<Skill>, overlay: seq<Skill>)
    requires UniqueIds(seed) && UniqueIds(overlay)
    ensures UniqueIds(AllSkillsOf(seed, overlay))
  {
    NotOverriddenUnique(seed, overlay);
    forall x, y | x in NotOverridden(seed, overlay) && y in overlay ensures IdsDiffer(x, y) {
      if x.id == y.id { assert HasId(overlay, x.id); }
    }
    PairwiseAppend(NotOverridden(seed, overlay), overlay, IdsDiffer);
  }

  /** After any sequence of registrations and clears, over a seed whose ids are unique: the catalog
      lists each id once, and looking an id up gives the one skill listed under it. */
  lemma LookupAgreesWithListing(seed: seq<Skill>, changes: seq<Change>)
    requires UniqueIds(seed)
    ensures var overlay := Changed([], changes); var all := AllSkillsOf(seed, overlay);
      && UniqueIds(all)
      && (forall id, s :: SkillOf(seed, overlay, id) == Some(s) <==> s in all && s.id == id)
  {
    var overlay := Changed([], changes);
    var all := AllSkillsOf(seed, overlay);
    ChangedUnique([], changes);
    AllSkillsUnique(seed, overlay);
    forall id, s ensures SkillOf(seed, overlay, id) == Some(s) <==> s in all && s.id == id {
      LookupIsListed(seed, overlay, id);
      if s in all && s.id == id {
        assert HasId(all, id);
        SameId(all, s, SkillOf(seed, overlay, id).value);
      }
    }
  }

  lemma LookupIsListed(seed: seq<Skill>, overlay: seq<Skill>, id: string)
    ensures var r := SkillOf(seed, overlay, id); var all := AllSkillsOf(seed, overlay);
      && (r.Some? ==> r.value in all && r.value.id == id)
      && (r.Some? <==> HasId(all, id))
  {
    var all := AllSkillsOf(seed, overlay);
    if HasId(all, id) {
      var s :| s in all && s.id == id;
      if s in overlay { assert HasId(overlay, id); } else { assert HasId(seed, id); }
    }
    if SkillOf(seed, overlay, id).Some? {
      assert SkillOf(seed, overlay, id).value in all;
    }
  }

  /** A registered skill is listed and replaces the entry of its id. */
  lemma RegisteringReplaces(seed: seq<Skill>, overlay: seq<Skill>, spec: Skill, id: string)
    ensures SkillOf(seed, Registered(overlay, spec), spec.id) == Some(spec)
    ensures id != spec.id ==> SkillOf(seed, Registered(overlay, spec), id) == SkillOf(seed, overlay, id)
  {
    FirstByIdAppend(WithoutId(overlay, spec.id), spec, id);
    FirstByIdAppend(WithoutId(overlay, spec.id), spec, spec.id);
    if id != spec.id { FirstByIdWithout(overlay, spec.id, id); }
    assert FirstById(WithoutId(overlay, spec.id), spec.id) == None;
  }

  lemma {:induction false} FirstByIdAppend(skills: seq<Skill>, last: Skill, id: string)
    ensures FirstById(skills + [last], id) ==
      if FirstById(skills, id).Some? then FirstById(skills, id) else if last.id == id then Some(last) else None
  {
    if skills == [] {
      assert skills + [last] == [last];
    } else {
      FirstByIdAppend(skills[1..], last, id);
      assert (skills + [last])[1..] == skills[1..] + [last];
    }
  }

  lemma {:induction false} FirstByIdWithout(skills: seq<Skill>, gone: string, id: string)
    requires id != gone
    ensures FirstById(WithoutId(skills, gone), id) == FirstById(skills, id)
  {
    if skills != [] {
      FirstByIdWithout(skills[1..], gone, id);
      var rest := WithoutId(skills[1..], gone);
      if skills[0].id != gone {
        assert WithoutId(skills, gone) == [skills[0]] + rest && ([skills[0]] + rest)[1..] == rest;
      } else {
        assert WithoutId(skills, gone) == rest;
      }
    }
  }
}
