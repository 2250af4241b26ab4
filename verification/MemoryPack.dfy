/** The ranked, deduplicated memory pack
    (packages/agent-memory/src/yule_agent_memory/long_term_memory.py, `build_memory_pack`). */
module MemoryPack {
  import opened MemoryModel
  import opened Relevance
  import opened Sequences
  import opened Sorting
  import opened Text
  import opened Wrappers

  datatype Entry = Entry(score: real, shard: Shard)

  /** A dictionary: its keys in insertion order, and their values. */
  datatype Dict = Dict(order: seq<Key>, best: map<Key, Entry>)

  /** What a source answers: its shards, or nothing because it raised. */
  type Answer = Option<seq<Shard>>

  function SafeQuery(a: Answer): seq<Shard> {
    match a
    case None => []
    case Some(shards) => shards
  }

  function Arrivals(answers: seq<Answer>): seq<Shard> {
    if answers == [] then [] else SafeQuery(answers[0]) + Arrivals(answers[1..])
  }

  /** Keeps the better entry of a hash; on a tie the earlier one stays. */
  function Offer(d: Dict, e: Entry): Dict {
    var h := e.shard.hash;
    if h !in d.best then Dict(d.order + [h], d.best[h := e])
    else if e.score > d.best[h].score then Dict(d.order, d.best[h := e])
    else d
  }

  function Dedupe(arrivals: seq<Shard>, score: Shard -> real): Dict {
    if arrivals == [] then Dict([], map[])
    else
      var last := arrivals[|arrivals| - 1];
      Offer(Dedupe(arrivals[..|arrivals| - 1], score), Entry(score(last), last))
  }

  function Values(d: Dict): seq<Entry>
    requires forall h :: h in d.order ==> h in d.best
  {
    seq(|d.order|, i requires 0 <= i < |d.order| => d.best[d.order[i]])
  }

  // ---------------------------------------------------------------------------------------------
  // The sort key
  // ---------------------------------------------------------------------------------------------

  function Priority(s: Shard): int { if IsBlock(s) then -1 else 0 }

  /** Tuples compared field by field: blocking mistakes first, then higher score, then inverted
      creation time, then hash. */
  predicate Before(a: Entry, b: Entry) {
    if Priority(a.shard) != Priority(b.shard) then Priority(a.shard) < Priority(b.shard)
    else if a.score != b.score then a.score > b.score
    else if Invert(a.shard.createdAt) != Invert(b.shard.createdAt) then
      LexLe(Invert(a.shard.createdAt), Invert(b.shard.createdAt))
    else LexLe(a.shard.hash, b.shard.hash)
  }

  lemma BeforePreorder()
    ensures Preorder(Before)
  {
    forall a, b ensures Before(a, b) || Before(b, a) { BeforeTotal(a, b); }
    forall a, b, c | Before(a, b) && Before(b, c) ensures Before(a, c) { BeforeTransitive(a, b, c); }
  }

  lemma BeforeTotal(a: Entry, b: Entry)
    ensures Before(a, b) || Before(b, a)
  {
    LexTotal(Invert(a.shard.createdAt), Invert(b.shard.createdAt));
    LexTotal(a.shard.hash, b.shard.hash);
  }

  lemma BeforeTransitive(a: Entry, b: Entry, c: Entry)
    requires Before(a, b) && Before(b, c)
    ensures Before(a, c)
  {
    var x, y, z := Invert(a.shard.createdAt), Invert(b.shard.createdAt), Invert(c.shard.createdAt);
    if LexLe(x, y) && LexLe(y, z) {
      LexTransitive(x, y, z);
      if x == z { LexAntisymmetric(x, y); }
    }
    if LexLe(a.shard.hash, b.shard.hash) && LexLe(b.shard.hash, c.shard.hash) {
      LexTransitive(a.shard.hash, b.shard.hash, c.shard.hash);
    }
  }

  lemma BeforeTiesShareHash(a: Entry, b: Entry)
    requires Before(a, b) && Before(b, a)
    ensures a.shard.hash == b.shard.hash
  {
    var x, y := Invert(a.shard.createdAt), Invert(b.shard.createdAt);
    if LexLe(x, y) && LexLe(y, x) { LexAntisymmetric(x, y); }
    if LexLe(a.shard.hash, b.shard.hash) && LexLe(b.shard.hash, a.shard.hash) {
      LexAntisymmetric(a.shard.hash, b.shard.hash);
    }
  }

  // ---------------------------------------------------------------------------------------------
  // The memory pack
  // ---------------------------------------------------------------------------------------------

  /** Python's `s[:max(0, n)]`. */
  function Top<T>(s: seq<T>, limit: int): seq<T> {
    if limit <= 0 then [] else if limit >= |s| then s else s[..limit]
  }

  function Ranked(arrivals: seq<Shard>, score: Shard -> real): seq<Entry> {
    DedupeShape(arrivals, score);
    StableSort(Values(Dedupe(arrivals, score)), Before)
  }

  function Shards(entries: seq<Entry>): (r: seq<Shard>)
    ensures |r| == |entries| && forall i :: 0 <= i < |r| ==> r[i] == entries[i].shard
  {
    seq(|entries|, i requires 0 <= i < |entries| => entries[i].shard)
  }

  /** The pack of what the sources answered. */
  function PackOf(answers: seq<Answer>, score: Shard -> real, limit: int): seq<Shard> {
    Shards(Top(Ranked(Arrivals(answers), score), limit))
  }

  /** The memory pack of the sources' answers; empty when no memory is wired or the layer is off. */
  method BuildMemoryPack(answers: Option<seq<Answer>>, enabled: bool, score: Shard -> real, limit: int)
    returns (pack: seq<Shard>)
    ensures pack == if answers == None || !enabled then [] else PackOf(answers.value, score, limit)
  {
    if answers == None || !enabled {
      return [];
    }
    var scored := Collect(answers.value, score);
    DedupeShape(Arrivals(answers.value), score);
    return Shards(Top(StableSort(Values(scored), Before), limit));
  }

  method Collect(answers: seq<Answer>, score: Shard -> real) returns (scored: Dict)
    ensures scored == Dedupe(Arrivals(answers), score)
  {
    scored := Dict([], map[]);
    for i := 0 to |answers|
      invariant scored == Dedupe(Arrivals(answers[..i]), score)
    {
      ArrivalsNext(answers, i);
      scored := OfferAll(scored, SafeQuery(answers[i]), score, Arrivals(answers[..i]));
    }
    assert answers[..|answers|] == answers;
  }

  lemma {:induction false} ArrivalsNext(answers: seq<Answer>, i: nat)
    requires i < |answers|
    ensures Arrivals(answers[..i + 1]) == Arrivals(answers[..i]) + SafeQuery(answers[i])
  {
    if i > 0 {
      ArrivalsNext(answers[1..], i - 1);
      assert answers[..i + 1][1..] == answers[1..][..i] && answers[..i][1..] == answers[1..][..i - 1];
    } else {
      assert answers[..1][1..] == [] && Arrivals(answers[..1]) == SafeQuery(answers[0]) + [];
    }
  }

  /** Offers the shards of one source; `done` is what arrived before. */
  method OfferAll(scored0: Dict, shards: seq<Shard>, score: Shard -> real, ghost done: seq<Shard>)
    returns (scored: Dict)
    requires scored0 == Dedupe(done, score)
    ensures scored == Dedupe(done + shards, score)
  {
    scored := scored0;
    assert done + shards[..0] == done;
    for j := 0 to |shards|
      invariant scored == Dedupe(done + shards[..j], score)
    {
      assert done + shards[..j + 1] == (done + shards[..j]) + [shards[j]];
      DedupeStep(done + shards[..j], shards[j], score);
      scored := Offer(scored, Entry(score(shards[j]), shards[j]));
    }
    assert shards[..|shards|] == shards;
  }

  lemma DedupeStep(done: seq<Shard>, s: Shard, score: Shard -> real)
    ensures Dedupe(done + [s], score) == Offer(Dedupe(done, score), Entry(score(s), s))
  {
    assert (done + [s])[..|done|] == done;
  }

  // ---------------------------------------------------------------------------------------------
  // Deduplication
  // ---------------------------------------------------------------------------------------------

  lemma {:induction false} DedupeShape(arrivals: seq<Shard>, score: Shard -> real)
    ensures var d := Dedupe(arrivals, score);
      && NoDuplicates(d.order)
      && (forall h :: h in d.order <==> h in d.best)
      && (forall h :: h in d.best ==> d.best[h].shard.hash == h && d.best[h].score == score(d.best[h].shard))
  {
    if arrivals != [] {
      DedupeShape(arrivals[..|arrivals| - 1], score);
    }
  }

  /** The first arrival with the highest score of its hash. */
  ghost predicate FirstBest(arrivals: seq<Shard>, score: Shard -> real, s: Shard) {
    exists i :: 0 <= i < |arrivals| && FirstBestAt(arrivals, score, s, i)
  }

  ghost predicate FirstBestAt(arrivals: seq<Shard>, score: Shard -> real, s: Shard, i: nat)
    requires i < |arrivals|
  {
    && arrivals[i] == s
    && (forall j :: 0 <= j < i && arrivals[j].hash == s.hash ==> score(arrivals[j]) < score(s))
    && (forall j :: i < j < |arrivals| && arrivals[j].hash == s.hash ==> score(arrivals[j]) <= score(s))
  }

  lemma {:induction false} DedupeFirstBest(arrivals: seq<Shard>, score: Shard -> real, h: Key)
    requires h in Dedupe(arrivals, score).best
    ensures FirstBest(arrivals, score, Dedupe(arrivals, score).best[h].shard)
  {
    var n := |arrivals| - 1;
    var before, last := arrivals[..n], arrivals[n];
    var p, d := Dedupe(before, score), Dedupe(arrivals, score);
    DedupeShape(before, score);
    if h in p.best && d.best[h] == p.best[h] {
      DedupeFirstBest(before, score, h);
      var i :| 0 <= i < |before| && FirstBestAt(before, score, p.best[h].shard, i);
      ExtendFirstBest(arrivals, score, p.best[h].shard, i);
    } else {
      NewFirstBest(arrivals, score);
    }
  }

  /** Deduplication keeps exactly one shard for each hash that arrived: the first arrival among those
      with the best score of that hash. */
  lemma DedupeKeepsFirstBest(arrivals: seq<Shard>, score: Shard -> real)
    ensures var d := Dedupe(arrivals, score);
      && (forall i :: 0 <= i < |arrivals| ==> arrivals[i].hash in d.best)
      && (forall h :: h in d.best ==> FirstBest(arrivals, score, d.best[h].shard))
  {
    DedupeKeepsFirstBestScores(arrivals, score);
    forall h | h in Dedupe(arrivals, score).best
      ensures FirstBest(arrivals, score, Dedupe(arrivals, score).best[h].shard)
    {
      DedupeFirstBest(arrivals, score, h);
    }
  }

  lemma ExtendFirstBest(arrivals: seq<Shard>, score: Shard -> real, s: Shard, i: nat)
    requires arrivals != [] && i < |arrivals| - 1 && FirstBestAt(arrivals[..|arrivals| - 1], score, s, i)
    requires var last := arrivals[|arrivals| - 1]; last.hash == s.hash ==> score(last) <= score(s)
    ensures FirstBest(arrivals, score, s)
  {
    assert FirstBestAt(arrivals, score, s, i);
  }

  lemma NewFirstBest(arrivals: seq<Shard>, score: Shard -> real)
    requires arrivals != []
    requires var p := Dedupe(arrivals[..|arrivals| - 1], score); var last := arrivals[|arrivals| - 1];
      && (last.hash in p.best ==> p.best[last.hash].score < score(last))
    ensures FirstBest(arrivals, score, arrivals[|arrivals| - 1])
  {
    var n := |arrivals| - 1;
    var last := arrivals[n];
    DedupeKeepsFirstBestScores(arrivals[..n], score);
    assert forall j :: 0 <= j < n ==> arrivals[..n][j] == arrivals[j];
    assert FirstBestAt(arrivals, score, last, n);
  }

  lemma {:induction false} DedupeKeepsFirstBestScores(arrivals: seq<Shard>, score: Shard -> real)
    ensures var d := Dedupe(arrivals, score);
      forall i :: 0 <= i < |arrivals| ==>
        arrivals[i].hash in d.best && score(arrivals[i]) <= d.best[arrivals[i].hash].score
  {
    if arrivals != [] {
      var before := arrivals[..|arrivals| - 1];
      DedupeKeepsFirstBestScores(before, score);
      assert forall i :: 0 <= i < |before| ==> before[i] == arrivals[i];
    }
  }

  // ---------------------------------------------------------------------------------------------
  // Theorems
  // ---------------------------------------------------------------------------------------------

  /** The survivors, listed in the order their hashes first arrived. */
  lemma ValuesAre(arrivals: seq<Shard>, score: Shard -> real)
    ensures var d := Dedupe(arrivals, score);
      && (forall h :: h in d.order ==> h in d.best)
      && (forall e :: e in Values(d) <==> e.shard.hash in d.best && d.best[e.shard.hash] == e)
      && NoDuplicates(Values(d))
  {
    var d := Dedupe(arrivals, score);
    DedupeShape(arrivals, score);
    var vs := Values(d);
    forall i, j | 0 <= i < j < |vs| ensures vs[i] != vs[j] {
      assert vs[i].shard.hash == d.order[i] && vs[j].shard.hash == d.order[j];
    }
    forall e: Entry | e.shard.hash in d.best && d.best[e.shard.hash] == e ensures e in vs {
      var k :| 0 <= k < |d.order| && d.order[k] == e.shard.hash;
      assert vs[k] == e;
    }
  }

  lemma RankedEntries(arrivals: seq<Shard>, score: Shard -> real)
    ensures var d := Dedupe(arrivals, score); var r := Ranked(arrivals, score);
      && (forall e :: e in r <==> e.shard.hash in d.best && d.best[e.shard.hash] == e)
      && (forall i, j :: 0 <= i < j < |r| ==> r[i].shard.hash != r[j].shard.hash)
      && SortedBy(r, Before)
      && |r| == |d.order|
  {
    ValuesAre(arrivals, score);
    var vs := Values(Dedupe(arrivals, score));
    BeforePreorder();
    SameElements(vs, Before);
    StableSortSorts(vs, Before);
    StableSortNoDuplicates(vs, Before);
    var r := Ranked(arrivals, score);
    forall i, j | 0 <= i < j < |r| ensures r[i].shard.hash != r[j].shard.hash {
      assert r[i] in r && r[j] in r;
    }
  }

  lemma RankedIsStrict(arrivals: seq<Shard>, score: Shard -> real)
    ensures var r := Ranked(arrivals, score);
      forall i, j :: 0 <= i < j < |r| ==> Before(r[i], r[j]) && !Before(r[j], r[i])
  {
    RankedEntries(arrivals, score);
    var r := Ranked(arrivals, score);
    forall i, j | 0 <= i < j < |r| ensures Before(r[i], r[j]) && !Before(r[j], r[i]) {
      if Before(r[j], r[i]) { BeforeTiesShareHash(r[i], r[j]); }
    }
  }

  lemma OmittedComesLater(arrivals: seq<Shard>, score: Shard -> real, limit: int, e: Entry, o: Entry)
    requires var top := Top(Ranked(arrivals, score), limit); e in top && o !in top
    requires o in Ranked(arrivals, score)
    ensures Before(e, o) && !Before(o, e)
  {
    RankedIsStrict(arrivals, score);
    var r := Ranked(arrivals, score);
    var top := Top(r, limit);
    var i :| 0 <= i < |top| && top[i] == e;
    var j :| 0 <= j < |r| && r[j] == o;
    assert forall m :: 0 <= m < |top| ==> top[m] == r[m];
    assert j >= |top|;
  }

  /** The memory pack is the exact top of the deduplicated arrivals: each shard the first best of its hash, no
      hash twice, as many as the limit allows, in strict key order, and no survivor left out sorts
      before one taken in. */
  lemma PackIsExactTop(arrivals: seq<Shard>, score: Shard -> real, limit: int)
    ensures var d := Dedupe(arrivals, score);
      var top := Top(Ranked(arrivals, score), limit);
      && |top| == (if limit <= 0 then 0 else if limit <= |d.order| then limit else |d.order|)
      && (forall e :: e in top ==> FirstBest(arrivals, score, e.shard))
      && (forall i, j :: 0 <= i < j < |top| ==> top[i].shard.hash != top[j].shard.hash && Before(top[i], top[j]))
      && (forall e, h :: e in top && h in d.best && d.best[h] !in top ==> Before(e, d.best[h]) && !Before(d.best[h], e))
  {
    RankedEntries(arrivals, score);
    DedupeKeepsFirstBest(arrivals, score);
    DedupeShape(arrivals, score);
    var r := Ranked(arrivals, score);
    var top := Top(r, limit);
    var d := Dedupe(arrivals, score);
    forall e | e in top ensures FirstBest(arrivals, score, e.shard) {
      assert e in r;
    }
    forall e, h | e in top && h in d.best && d.best[h] !in top ensures Before(e, d.best[h]) && !Before(d.best[h], e) {
      OmittedComesLater(arrivals, score, limit, e, d.best[h]);
    }
  }

  /** A blocking mistake precedes every other shard, and is dropped only when blocking mistakes alone
      fill the memory pack. */
  lemma BlocksComeFirst(arrivals: seq<Shard>, score: Shard -> real, limit: int)
    ensures var top := Top(Ranked(arrivals, score), limit);
      && (forall i, j :: 0 <= i < j < |top| && IsBlock(top[j].shard) ==> IsBlock(top[i].shard))
      && (forall e :: e in Ranked(arrivals, score) && IsBlock(e.shard) && e !in top ==>
            forall t :: t in top ==> IsBlock(t.shard))
  {
    RankedEntries(arrivals, score);
    var r := Ranked(arrivals, score);
    var top := Top(r, limit);
    forall i, j | 0 <= i < j < |r| && IsBlock(r[j].shard) ensures IsBlock(r[i].shard) {
      assert Before(r[i], r[j]);
    }
    forall e, t | e in r && IsBlock(e.shard) && e !in top && t in top ensures IsBlock(t.shard) {
      var j :| 0 <= j < |r| && r[j] == e;
      var i :| 0 <= i < |top| && top[i] == t;
      assert forall m :: 0 <= m < |top| ==> top[m] == r[m];
      assert j >= |top|;
    }
  }

  /** Of two shards of one priority and score, with timestamps of one length, the newer comes first. */
  lemma NewerComesFirst(arrivals: seq<Shard>, score: Shard -> real, limit: int, i: nat, j: nat)
    requires var top := Top(Ranked(arrivals, score), limit);
      && i < j < |top| && top[i].score == top[j].score && IsBlock(top[i].shard) == IsBlock(top[j].shard)
      && |top[i].shard.createdAt| == |top[j].shard.createdAt|
    ensures var top := Top(Ranked(arrivals, score), limit); LexLe(top[j].shard.createdAt, top[i].shard.createdAt)
  {
    var top := Top(Ranked(arrivals, score), limit);
    RankedIsStrict(arrivals, score);
    var a, b := top[i].shard.createdAt, top[j].shard.createdAt;
    assert Before(top[i], top[j]);
    LexTotal(a, b);
    if LexLess(a, b) {
      InvertReversesSameLength(b, a);
      LexAntisymmetricKeys(Invert(a), Invert(b));
    }
  }

  lemma LexAntisymmetricKeys(a: Key, b: Key)
    ensures LexLe(a, b) && LexLe(b, a) ==> a == b
  {
    if LexLe(a, b) && LexLe(b, a) { LexAntisymmetric(a, b); }
  }

  /** Scores under which only blocking mistakes reach the maximum. */
  ghost predicate BlocksScoreHighest(arrivals: seq<Shard>, score: Shard -> real) {
    forall s :: s in arrivals ==> (if IsBlock(s) then score(s) == 1.0 else score(s) < 1.0)
  }

  /** Whenever some source returned a blocking shard for a hash, the survivor of that hash is blocking:
      in whatever order the shards arrive, best-score-wins never suppresses a block. */
  lemma BlockSurvives(arrivals: seq<Shard>, score: Shard -> real, b: Shard)
    requires BlocksScoreHighest(arrivals, score) && b in arrivals && IsBlock(b)
    ensures var d := Dedupe(arrivals, score); b.hash in d.best && IsBlock(d.best[b.hash].shard)
  {
    DedupeKeepsFirstBest(arrivals, score);
    DedupeKeepsFirstBestScores(arrivals, score);
    DedupeShape(arrivals, score);
    var k :| 0 <= k < |arrivals| && arrivals[k] == b;
    var s := Dedupe(arrivals, score).best[b.hash].shard;
    var i :| 0 <= i < |arrivals| && FirstBestAt(arrivals, score, s, i);
    assert s in arrivals && score(b) <= score(s);
  }

  /** The default weights score that way, so with them a block always survives. */
  lemma BlockSurvivesByDefault(arrivals: seq<Shard>, score: Shard -> real, r: Request, horizonDays: int, b: Shard)
    requires forall s :: s in arrivals ==> score(s) == Score(s, r, horizonDays, DEFAULT_WEIGHTS)
    requires b in arrivals && IsBlock(b)
    ensures var d := Dedupe(arrivals, score); b.hash in d.best && IsBlock(d.best[b.hash].shard)
  {
    forall s | s in arrivals ensures if IsBlock(s) then score(s) == 1.0 else score(s) < 1.0 {
      DefaultScoreBound(s, r, horizonDays);
    }
    BlockSurvives(arrivals, score, b);
  }

  /** With any scores in which blocks are at the maximum, the survivor is blocking exactly when no
      other shard of that hash with the maximal score arrives before the first block. */
  lemma BlockSurvivesIff(arrivals: seq<Shard>, score: Shard -> real, first: nat)
    requires first < |arrivals| && IsBlock(arrivals[first])
    requires forall s :: s in arrivals ==> score(s) <= 1.0 && (IsBlock(s) ==> score(s) == 1.0)
    requires forall i :: 0 <= i < first && arrivals[i].hash == arrivals[first].hash ==> !IsBlock(arrivals[i])
    ensures var h := arrivals[first].hash; var d := Dedupe(arrivals, score);
      && h in d.best
      && (IsBlock(d.best[h].shard) <==>
            forall i :: 0 <= i < first && arrivals[i].hash == h ==> score(arrivals[i]) < 1.0)
  {
    var h := arrivals[first].hash;
    DedupeKeepsFirstBest(arrivals, score);
    DedupeShape(arrivals, score);
    var s := Dedupe(arrivals, score).best[h].shard;
    var k :| 0 <= k < |arrivals| && FirstBestAt(arrivals, score, s, k);
    assert arrivals[first] in arrivals && s in arrivals;
    if k < first {
      assert score(arrivals[first]) <= score(s);
    }
  }

  /** A source that raises leaves the memory pack as if it were absent. */
  lemma {:induction false} RaisingIsAbsent(answers: seq<Answer>)
    ensures Arrivals(answers) == Arrivals(Select(answers, (a: Answer) => a.Some?))
  {
    var answered := (a: Answer) => a.Some?;
    if answers != [] {
      RaisingIsAbsent(answers[1..]);
      var rest := Select(answers[1..], answered);
      if answers[0].Some? {
        assert Select(answers, answered) == [answers[0]] + rest;
        assert ([answers[0]] + rest)[1..] == rest;
      } else {
        assert Select(answers, answered) == rest;
      }
    }
  }
}
