/** The relevance score of a shard
    (packages/agent-memory/src/yule_agent_memory/relevance_selector.py), over the reals. */
module Relevance {
  import opened MemoryModel
  import opened Text
  import opened Wrappers

  const SECONDS_PER_DAY := 86400.0

  /** `role` is stripped and in lower case already; `now` is in seconds. */
  datatype Request = Request(role: string, topicTags: seq<string>, now: int)

  function SourceTrust(k: Kind): real {
    match k
    case Decision => 0.9
    case Mistake => 0.85
    case Audit => 0.8
    case ObsidianNote => 0.7
    case SessionExtra => 0.5
  }

  const DEFAULT_WEIGHTS := [("recency", 0.25), ("topic_overlap", 0.35), ("role_match", 0.15), ("source_trust", 0.25)]

  function Recency(created: Option<int>, now: int, horizonDays: int): real {
    if created == None then 0.0
    else
      var age := (now - created.value) as real / SECONDS_PER_DAY;
      var horizon := if horizonDays < 1 then 1.0 else horizonDays as real;
      if age <= 0.0 then 1.0
      else if age >= horizon then 0.0
      else if 1.0 - age / horizon < 0.0 then 0.0 else 1.0 - age / horizon
  }

  function Normalised(tags: seq<string>): set<string> {
    set t | t in tags && t != "" :: Lower(Strip(t))
  }

  function TopicOverlap(s: Shard, r: Request): real {
    var wanted, has := Normalised(r.topicTags), Normalised(s.topicTags);
    if wanted == {} || has == {} then 0.0 else |has * wanted| as real / |has + wanted| as real
  }

  /** What follows the last slash. */
  function LastSegment(role: string): string {
    if role == "" || role[|role| - 1] == '/' then "" else LastSegment(role[..|role| - 1]) + [role[|role| - 1]]
  }

  function RoleMatch(s: Shard, r: Request): real {
    var source := Lower(s.source);
    if r.role == "" || source == "" then 0.0
    else if Contains(source, r.role) then 1.0
    else if LastSegment(r.role) != "" && Contains(source, LastSegment(r.role)) then 1.0
    else 0.0
  }

  /** The four component scores; an unknown weight name counts for nothing. */
  datatype Components = Components(recency: real, overlap: real, role: real, trust: real) {
    function Get(key: string): real {
      if key == "recency" then recency
      else if key == "topic_overlap" then overlap
      else if key == "role_match" then role
      else if key == "source_trust" then trust
      else 0.0
    }
  }

  function ComponentsOf(s: Shard, r: Request, horizonDays: int): Components {
    Components(Recency(s.created, r.now, horizonDays), TopicOverlap(s, r), RoleMatch(s, r), SourceTrust(s.kind))
  }

  function WeightedSum(weights: seq<(string, real)>, c: Components): real {
    if weights == [] then 0.0 else weights[0].1 * c.Get(weights[0].0) + WeightedSum(weights[1..], c)
  }

  function Clamp(x: real): real {
    if x > 1.0 then 1.0 else if x < 0.0 then 0.0 else x
  }

  function ScoreFrom(s: Shard, c: Components, weights: seq<(string, real)>): real {
    if IsBlock(s) then 1.0 else Clamp(WeightedSum(weights, c))
  }

  function Score(s: Shard, r: Request, horizonDays: int, weights: seq<(string, real)>): real {
    ScoreFrom(s, ComponentsOf(s, r, horizonDays), weights)
  }

  /** The score loop, given the component scores. */
  method ComputeScore(s: Shard, c: Components, weights: seq<(string, real)>) returns (score: real)
    ensures score == ScoreFrom(s, c, weights)
  {
    if IsBlock(s) {
      return 1.0;
    }
    var total := 0.0;
    for i := 0 to |weights|
      invariant total + WeightedSum(weights[i..], c) == WeightedSum(weights, c)
    {
      total := total + weights[i].1 * c.Get(weights[i].0);
    }
    return Clamp(total);
  }

  lemma RatioInUnit(x: real, y: real)
    requires 0.0 <= x <= y && 0.0 < y
    ensures 0.0 <= x / y <= 1.0
  {}

  lemma ComponentsInUnit(s: Shard, r: Request, horizonDays: int)
    ensures var c := ComponentsOf(s, r, horizonDays);
      && 0.0 <= c.recency <= 1.0 && 0.0 <= c.overlap <= 1.0 && 0.0 <= c.role <= 1.0 && 0.5 <= c.trust <= 0.9
  {
    RecencyInUnit(s.created, r.now, horizonDays);
    OverlapInUnit(s, r);
    RoleIsZeroOrOne(s, r);
    TrustInRange(s.kind);
  }

  lemma RoleIsZeroOrOne(s: Shard, r: Request)
    ensures RoleMatch(s, r) == 0.0 || RoleMatch(s, r) == 1.0
  {}

  lemma TrustInRange(k: Kind)
    ensures 0.5 <= SourceTrust(k) <= 0.9 && (SourceTrust(k) == 0.9 <==> k == Decision)
  {}

  lemma RecencyInUnit(created: Option<int>, now: int, horizonDays: int)
    ensures 0.0 <= Recency(created, now, horizonDays) <= 1.0
  {
    if created.Some? {
      var age := (now - created.value) as real / SECONDS_PER_DAY;
      var horizon := if horizonDays < 1 then 1.0 else horizonDays as real;
      if 0.0 < age < horizon { RatioInUnit(age, horizon); }
    }
  }

  lemma OverlapInUnit(s: Shard, r: Request)
    ensures 0.0 <= TopicOverlap(s, r) <= 1.0
  {
    var wanted, has := Normalised(r.topicTags), Normalised(s.topicTags);
    if wanted != {} && has != {} {
      SubsetSize(has * wanted, has + wanted);
      assert has + wanted != {};
      RatioInUnit(|has * wanted| as real, |has + wanted| as real);
    }
  }

  lemma SubsetSize<T>(a: set<T>, b: set<T>)
    requires a <= b
    ensures |a| <= |b|
  {
    assert |b| == |a| + |b - a| by { assert b == a + (b - a); }
  }

  lemma DefaultSum(c: Components)
    ensures WeightedSum(DEFAULT_WEIGHTS, c) == 0.25 * c.recency + 0.35 * c.overlap + 0.15 * c.role + 0.25 * c.trust
  {
    var w := DEFAULT_WEIGHTS;
    assert w[3..] == [w[3]] && w[3..][1..] == [];
    assert WeightedSum(w[3..], c) == 0.25 * c.trust;
    assert w[2..][1..] == w[3..];
    assert WeightedSum(w[2..], c) == 0.15 * c.role + 0.25 * c.trust;
    assert w[1..][1..] == w[2..];
    assert WeightedSum(w[1..], c) == 0.35 * c.overlap + 0.15 * c.role + 0.25 * c.trust;
  }

  /** With the default weights a blocking mistake scores 1 and every other shard between 0 and 0.975.
      The bound is reached exactly by a decision that is fresh, of the requested role and tagged with
      the requested topics. */
  lemma DefaultScoreBound(s: Shard, r: Request, horizonDays: int)
    ensures var score := Score(s, r, horizonDays, DEFAULT_WEIGHTS);
      var c := ComponentsOf(s, r, horizonDays);
      && (IsBlock(s) <==> score == 1.0)
      && (!IsBlock(s) ==> 0.0 <= score <= 0.975)
      && (score == 0.975 <==> s.kind == Decision && c.recency == 1.0 && c.overlap == 1.0 && c.role == 1.0)
  {
    var c := ComponentsOf(s, r, horizonDays);
    ComponentsInUnit(s, r, horizonDays);
    DefaultSum(c);
    TrustInRange(s.kind);
  }
}
