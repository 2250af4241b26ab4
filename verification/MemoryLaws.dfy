/** What a memory pack, a score and an index lookup are, said of the shards themselves
    (packages/agent-memory/src/yule_agent_memory/long_term_memory.py, relevance_selector.py and
    topic_index.py). */
module MemoryLaws {
  import opened MemoryModel
  import opened MemoryPack
  import opened Relevance
  import opened Sequences
  import opened Sorting
  import opened Text
  import opened TopicIndex
  import opened Wrappers

  // ---------------------------------------------------------------------------------------------
  // The pack
  // ---------------------------------------------------------------------------------------------

  /** The answers are read one source after the other; one that raised gives nothing. */
  lemma {:induction false} AnswersInOrder(a: seq<Answer>, b: seq<Answer>)
    ensures Arrivals(a + b) == Arrivals(a) + Arrivals(b)
    ensures Arrivals([None]) == [] && forall shards :: Arrivals([Some(shards)]) == shards
  {
    assert forall x: Answer :: [x][1..] == [];
    if a == [] {
      assert a + b == b;
    } else {
      assert (a + b)[1..] == a[1..] + b;
      AnswersInOrder(a[1..], b);
    }
  }

  /** The entries a pack is made of. */
  lemma PackEntries(answers: seq<Answer>, score: Shard -> real, limit: int)
    ensures var top, pack := Top(Ranked(Arrivals(answers), score), limit), PackOf(answers, score, limit);
      && |pack| == |top|
      && (forall i :: 0 <= i < |pack| ==> pack[i] == top[i].shard && top[i].score == score(pack[i]))
      && (forall i, j :: 0 <= i < j < |pack| ==> Before(top[i], top[j]))
  {
    var all := Arrivals(answers);
    var r := Ranked(all, score);
    DedupeShape(all, score);
    RankedEntries(all, score);
    var top := Top(r, limit);
    forall i | 0 <= i < |top| ensures top[i].score == score(top[i].shard) {
      assert top[i] == r[i] && r[i] in r;
    }
  }

  /** The hashes that arrived. */
  ghost function Hashes(shards: seq<Shard>): set<Key> {
    set i | 0 <= i < |shards| :: shards[i].hash
  }

  /** As many shards as the limit allows, one for each hash that arrived: the first with the best score of
      its hash. */
  lemma PackHasOnePerHash(answers: seq<Answer>, score: Shard -> real, limit: int)
    ensures var pack, all := PackOf(answers, score, limit), Arrivals(answers);
      && |pack| == (if limit <= 0 then 0 else if limit <= |Hashes(all)| then limit else |Hashes(all)|)
      && (forall s :: s in pack ==> FirstBest(all, score, s))
      && (forall i, j :: 0 <= i < j < |pack| ==> pack[i].hash != pack[j].hash)
  {
    var all := Arrivals(answers);
    PackEntries(answers, score, limit);
    PackIsExactTop(all, score, limit);
    HashesAreKept(all, score);
    var top := Top(Ranked(all, score), limit);
    forall s | s in PackOf(answers, score, limit) ensures FirstBest(all, score, s) {
      var i :| 0 <= i < |top| && PackOf(answers, score, limit)[i] == s;
      assert top[i] in top;
    }
  }

  lemma HashesLast(all: seq<Shard>, last: Shard)
    ensures Hashes(all + [last]) == Hashes(all) + {last.hash}
  {
    var more := all + [last];
    assert forall i :: 0 <= i < |all| ==> more[i] == all[i];
    assert more[|all|] == last;
    forall h | h in Hashes(all) ensures h in Hashes(more) {
      var i :| 0 <= i < |all| && all[i].hash == h;
      assert more[i].hash == h;
    }
  }

  lemma {:induction false} HashesAreKept(all: seq<Shard>, score: Shard -> real)
    ensures |Dedupe(all, score).order| == |Hashes(all)|
    ensures forall h :: h in Dedupe(all, score).order <==> h in Hashes(all)
  {
    if all != [] {
      var n := |all| - 1;
      HashesAreKept(all[..n], score);
      DedupeShape(all[..n], score);
      assert all == all[..n] + [all[n]];
      HashesLast(all[..n], all[n]);
      var d := Dedupe(all[..n], score);
      if all[n].hash in d.best {
        assert Hashes(all) == Hashes(all[..n]);
      } else {
        assert Dedupe(all, score).order == d.order + [all[n].hash];
      }
    }
  }

  /** Blocking mistakes come first. */
  lemma BlocksLead(answers: seq<Answer>, score: Shard -> real, limit: int, i: nat, j: nat)
    requires i < j < |PackOf(answers, score, limit)| && IsBlock(PackOf(answers, score, limit)[j])
    ensures IsBlock(PackOf(answers, score, limit)[i])
  {
    PackEntries(answers, score, limit);
    BlocksComeFirst(Arrivals(answers), score, limit);
  }

  /** Two shards of a pack, both blocking or both not: the higher score comes first; of equal scores the
      newer one, when neither timestamp starts the other (as when they have one length), and the shorter
      one when it does; of equal scores and timestamps the smaller hash. */
  lemma HigherScoreComesFirst(answers: seq<Answer>, score: Shard -> real, limit: int, i: nat, j: nat)
    requires i < j < |PackOf(answers, score, limit)|
    requires IsBlock(PackOf(answers, score, limit)[i]) == IsBlock(PackOf(answers, score, limit)[j])
    ensures var a, b := PackOf(answers, score, limit)[i], PackOf(answers, score, limit)[j];
      && score(a) >= score(b)
      && (score(a) == score(b) && a.createdAt != [] && b.createdAt != [] ==> NoOlder(a.createdAt, b.createdAt))
      && (score(a) == score(b) && a.createdAt == b.createdAt ==> LexLe(a.hash, b.hash))
  {
    var top := Top(Ranked(Arrivals(answers), score), limit);
    PackEntries(answers, score, limit);
    assert Before(top[i], top[j]);
    if top[i].score == top[j].score { InvertedFirst(top[i].shard.createdAt, top[j].shard.createdAt); }
  }

  /** The first timestamp starts the second, or neither starts the other and the first is no earlier. */
  predicate NoOlder(a: Key, b: Key) { a <= b || (!(b <= a) && LexLe(b, a)) }

  lemma InvertedFirst(a: Key, b: Key)
    ensures a != [] && b != [] && LexLe(Invert(a), Invert(b)) ==> NoOlder(a, b)
  {
    if a != [] && b != [] && LexLe(Invert(a), Invert(b)) && !(a <= b) {
      ComplementLess(a, b);
      ComplementLess(b, a);
      if Invert(a) == Invert(b) { SameInverted(a, b); }
    }
  }

  lemma SameInverted(a: Key, b: Key)
    requires a != [] && b != [] && Invert(a) == Invert(b)
    ensures a == b
  {
    assert forall i :: 0 <= i < |a| ==> Invert(a)[i] == MAX_CODE_POINT - a[i];
    assert forall i :: 0 <= i < |b| ==> Invert(b)[i] == MAX_CODE_POINT - b[i];
    forall i | 0 <= i < |a| ensures a[i] == b[i] { assert Invert(a)[i] == Invert(b)[i]; }
  }

  lemma FirstBestIsUnique(all: seq<Shard>, score: Shard -> real, a: Shard, b: Shard)
    requires FirstBest(all, score, a) && FirstBest(all, score, b) && a.hash == b.hash
    ensures a == b
  {
    var i :| 0 <= i < |all| && FirstBestAt(all, score, a, i);
    var j :| 0 <= j < |all| && FirstBestAt(all, score, b, j);
  }

  /** The entry of the first best arrival of a hash is ranked. */
  lemma FirstBestIsRanked(all: seq<Shard>, score: Shard -> real, s: Shard)
    requires FirstBest(all, score, s)
    ensures Entry(score(s), s) in Ranked(all, score)
  {
    var i :| 0 <= i < |all| && FirstBestAt(all, score, s, i);
    DedupeKeepsFirstBest(all, score);
    DedupeShape(all, score);
    RankedEntries(all, score);
    var e := Dedupe(all, score).best[s.hash];
    FirstBestIsUnique(all, score, e.shard, s);
    assert e == Entry(score(s), s);
  }

  /** A shard that is the first best of its hash and is left out comes after each one taken: it does not
      block unless that one does; if both do or both do not, it scores no higher, and of equal score and
      time it has no smaller hash. */
  lemma NothingBetterIsLeftOut(answers: seq<Answer>, score: Shard -> real, limit: int, taken: Shard, out: Shard)
    requires taken in PackOf(answers, score, limit) && out !in PackOf(answers, score, limit)
    requires FirstBest(Arrivals(answers), score, out)
    ensures IsBlock(out) ==> IsBlock(taken)
    ensures IsBlock(out) == IsBlock(taken) ==> score(taken) >= score(out)
    ensures IsBlock(out) == IsBlock(taken) && score(taken) == score(out) && taken.createdAt == out.createdAt ==>
      LexLe(taken.hash, out.hash)
  {
    var all, pack := Arrivals(answers), PackOf(answers, score, limit);
    var top := Top(Ranked(all, score), limit);
    PackEntries(answers, score, limit);
    FirstBestIsRanked(all, score, out);
    var i :| 0 <= i < |pack| && pack[i] == taken;
    var e, o := top[i], Entry(score(out), out);
    assert forall j :: 0 <= j < |top| ==> pack[j] == top[j].shard && pack[j] in pack;
    assert o !in top;
    OmittedComesLater(all, score, limit, e, o);
  }

  /** Only a mistake whose blocker says "block", in whatever case, blocks. */
  lemma BlocksIff(s: Shard)
    ensures IsBlock(s) <==> s.kind == Mistake && Lower(s.blocker) == "block"
  {
    var b := Lower(s.blocker);
    if |b| == 5 {
      assert b == "block" <==> b[0] == 'b' && b[1] == 'l' && b[2] == 'o' && b[3] == 'c' && b[4] == 'k';
    }
  }

  // ---------------------------------------------------------------------------------------------
  // Scores
  // ---------------------------------------------------------------------------------------------

  /** The fraction of the horizon that is left, counted in seconds. */
  lemma RecencyIs(created: int, now: int, horizonDays: int)
    ensures var r, h := Recency(Some(created), now, horizonDays), if horizonDays < 1 then 1 else horizonDays;
      && (created >= now ==> r == 1.0)
      && (now - created >= 86400 * h ==> r == 0.0)
      && (0 < now - created < 86400 * h ==> LinearlyLess(r, now - created, h))
    ensures Recency(None, now, horizonDays) == 0.0
  {
    var h := if horizonDays < 1 then 1 else horizonDays;
    var age := (now - created) as real / 86400.0;
    assert age * 86400.0 == (now - created) as real;
    assert (86400 * h) as real == 86400.0 * h as real;
    if 0 < now - created < 86400 * h {
      assert 0.0 < age < h as real;
      Fraction(age, h as real);
      var r := 1.0 - age / h as real;
      assert r * h as real == h as real - age;
    }
  }

  predicate LinearlyLess(r: real, age: int, days: int) {
    r * days as real * 86400.0 == (86400 * days - age) as real
  }

  lemma Fraction(x: real, y: real)
    requires 0.0 < x < y
    ensures (x / y) * y == x
  {}

  /** Tags are compared stripped and in lower case, without empty ones. */
  lemma TagsAre(tags: seq<string>, t: string)
    ensures t in Normalised(tags) <==> exists i :: 0 <= i < |tags| && tags[i] != "" && t == Lower(Strip(tags[i]))
  {
    if t in Normalised(tags) {
      var x :| x in tags && x != "" && Lower(Strip(x)) == t;
      var i :| 0 <= i < |tags| && tags[i] == x;
    }
  }

  predicate IsQuotient(q: real, x: nat, y: nat) { y > 0 && q * y as real == x as real }

  /** The share of the tags of both that they have in common; nothing when either has none. */
  lemma OverlapIs(s: Shard, r: Relevance.Request)
    ensures var wanted, has := Normalised(r.topicTags), Normalised(s.topicTags);
      if wanted == {} || has == {} then TopicOverlap(s, r) == 0.0
      else IsQuotient(TopicOverlap(s, r), |wanted * has|, |wanted + has|)
  {
    var wanted, has := Normalised(r.topicTags), Normalised(s.topicTags);
    if wanted != {} && has != {} {
      assert wanted + has == has + wanted && wanted * has == has * wanted && has + wanted != {};
      Quotient(TopicOverlap(s, r), |wanted * has|, |wanted + has|);
    }
  }

  lemma Quotient(q: real, x: nat, y: nat)
    requires y > 0 && q == x as real / y as real
    ensures IsQuotient(q, x, y)
  {}

  /** What follows the last slash of a role. */
  lemma {:induction false} LastSegmentIs(role: string) returns (path: string)
    ensures role == path + LastSegment(role) && (path == "" || path[|path| - 1] == '/') && '/' !in LastSegment(role)
  {
    if role == "" || role[|role| - 1] == '/' {
      path := role;
    } else {
      path := LastSegmentIs(role[..|role| - 1]);
    }
  }

  /** A role matches when the source, in lower case, contains it or what follows its last slash. */
  lemma RoleMatchIff(s: Shard, r: Relevance.Request)
    ensures RoleMatch(s, r) == (if r.role != "" && s.source != ""
        && (Contains(Lower(s.source), r.role)
            || (LastSegment(r.role) != "" && Contains(Lower(s.source), LastSegment(r.role)))) then 1.0 else 0.0)
  {}

  /** How far each kind of shard is trusted. */
  lemma TrustIs(s: Shard)
    ensures match s.kind
      case Decision => SourceTrust(s.kind) == 0.9
      case Mistake => SourceTrust(s.kind) == 0.85
      case Audit => SourceTrust(s.kind) == 0.8
      case ObsidianNote => SourceTrust(s.kind) == 0.7
      case SessionExtra => SourceTrust(s.kind) == 0.5
  {}

  /** The score with the default weights. */
  lemma DefaultScoreIs(s: Shard, r: Relevance.Request, horizonDays: int)
    ensures Score(s, r, horizonDays, DEFAULT_WEIGHTS) == if IsBlock(s) then 1.0
      else 0.25 * Recency(s.created, r.now, horizonDays) + 0.35 * TopicOverlap(s, r) + 0.15 * RoleMatch(s, r)
           + 0.25 * SourceTrust(s.kind)
  {
    DefaultScoreBound(s, r, horizonDays);
    ComponentsInUnit(s, r, horizonDays);
    DefaultSum(ComponentsOf(s, r, horizonDays));
  }

  // ---------------------------------------------------------------------------------------------
  // Words
  // ---------------------------------------------------------------------------------------------

  ghost predicate AllWordChars(s: string) {
    forall i :: 0 <= i < |s| ==> IsWordChar(s[i])
  }

  lemma {:induction false} RunLengthIs(s: string, n: nat)
    requires n <= |s| && AllWordChars(s[..n]) && (n < |s| ==> !IsWordChar(s[n]))
    ensures RunLength(s) == n
  {
    if n > 0 {
      assert s[0] == s[..n][0] && s[1..][..n - 1] == s[..n][1..];
      RunLengthIs(s[1..], n - 1);
    }
  }

  /** A run of letters a to z and digits is one word. */
  lemma RunIsOneWord(w: string)
    requires w != "" && forall i :: 0 <= i < |w| ==> 'a' <= w[i] <= 'z' || '0' <= w[i] <= '9'
    ensures Words(w) == [w]
  {
    assert w[..|w|] == w;
    RunLengthIs(w, |w|);
    assert Words(w[|w|..]) == [];
  }

  lemma {:induction false} RunLengthFits(a: string, c: char, b: string)
    requires !IsWordChar(c)
    ensures RunLength(a + [c] + b) == RunLength(a)
  {
    if a != "" && IsWordChar(a[0]) {
      assert (a + [c] + b)[1..] == a[1..] + [c] + b;
      RunLengthFits(a[1..], c, b);
    }
  }

  /** Any other character separates words. */
  lemma {:induction false} SeparatorSplitsWords(a: string, c: char, b: string)
    requires !('a' <= c <= 'z' || '0' <= c <= '9')
    ensures Words("") == [] && Words(a + [c] + b) == Words(a) + Words(b)
    decreases |a|
  {
    var s := a + [c] + b;
    if a == "" {
      assert s[1..] == b;
    } else if IsWordChar(a[0]) {
      var n := RunLength(a);
      RunLengthFits(a, c, b);
      assert s[..n] == a[..n] && s[n..] == a[n..] + [c] + b;
      SeparatorSplitsWords(a[n..], c, b);
    } else {
      assert s[1..] == a[1..] + [c] + b;
      SeparatorSplitsWords(a[1..], c, b);
    }
  }

  // ---------------------------------------------------------------------------------------------
  // Lookup
  // ---------------------------------------------------------------------------------------------

  /** Some tag, or entry of a query, holds the word. */
  ghost predicate InTags(tags: seq<string>, w: string) {
    exists i :: 0 <= i < |tags| && w in Words(Lower(Strip(tags[i])))
  }

  /** The word is among so many leading ones. */
  ghost predicate Leads(words: seq<string>, budget: nat, w: string) {
    exists i :: 0 <= i < budget && i < |words| && words[i] == w
  }

  lemma TagFinds(tags: seq<string>, w: string)
    ensures w in TagTokens(tags) <==> InTags(tags, w)
  {
    if InTags(tags, w) {
      var i :| 0 <= i < |tags| && w in Words(Lower(Strip(tags[i])));
      assert tags[i] in tags && w in Tokenize(tags[i]);
    }
    if w in TagTokens(tags) {
      var t :| t in tags && w in Tokenize(t);
      var i :| 0 <= i < |tags| && tags[i] == t;
    }
  }

  lemma HeadFinds(words: seq<string>, budget: nat, w: string)
    ensures w in Head(words, budget) <==> Leads(words, budget, w)
  {
    var head := Head(words, budget);
    assert forall i :: 0 <= i < |head| ==> head[i] == words[i];
    if Leads(words, budget, w) {
      var i :| 0 <= i < budget && i < |words| && words[i] == w;
      assert head[i] == w;
    }
    if w in head {
      var i :| 0 <= i < |head| && head[i] == w;
      assert words[i] == w;
    }
  }

  /** The words that find a shard: those of its tags, and as many of its content as the budget allows. */
  lemma FoundBy(s: Shard, budget: nat, w: string)
    ensures w in ShardTokens(s, budget) <==> InTags(s.topicTags, w) || Leads(Words(Lower(s.content)), budget, w)
  {
    TagFinds(s.topicTags, w);
    HeadFinds(Words(Lower(s.content)), budget, w);
  }

  /** The shard was added before any other of its hash. */
  ghost predicate AddedFirst(added: seq<Shard>, s: Shard) {
    exists i :: 0 <= i < |added| && added[i] == s && forall j :: 0 <= j < i ==> added[j].hash != s.hash
  }

  lemma {:induction false} FirstsAre(added: seq<Shard>, s: Shard)
    ensures s in Firsts(added) <==> AddedFirst(added, s)
    ensures (exists x :: x in Firsts(added) && x.hash == s.hash) <==>
      exists i :: 0 <= i < |added| && added[i].hash == s.hash
  {
    if added != [] {
      var n := |added| - 1;
      FirstsAre(added[..n], s);
      FirstsAre(added[..n], added[n]);
      FirstsLast(added[..n], added[n], s);
      assert added == added[..n] + [added[n]];
    }
  }

  lemma FirstsLast(before: seq<Shard>, last: Shard, s: Shard)
    requires s in Firsts(before) <==> AddedFirst(before, s)
    requires (exists x :: x in Firsts(before) && x.hash == s.hash) <==>
      exists i :: 0 <= i < |before| && before[i].hash == s.hash
    requires (exists x :: x in Firsts(before) && x.hash == last.hash) <==>
      exists i :: 0 <= i < |before| && before[i].hash == last.hash
    ensures var all := before + [last];
      && (s in Firsts(all) <==> AddedFirst(all, s))
      && ((exists x :: x in Firsts(all) && x.hash == s.hash) <==>
            exists i :: 0 <= i < |all| && all[i].hash == s.hash)
  {
    var all := before + [last];
    assert all[..|before|] == before;
    var firsts := Firsts(before);
    assert Firsts(all) == if exists x :: x in firsts && x.hash == last.hash then firsts else firsts + [last];
    if AddedFirst(before, s) {
      var i :| 0 <= i < |before| && before[i] == s && forall j :: 0 <= j < i ==> before[j].hash != s.hash;
      assert all[i] == s;
    }
    if AddedFirst(all, s) && s != last {
      var i :| 0 <= i < |all| && all[i] == s && forall j :: 0 <= j < i ==> all[j].hash != s.hash;
      assert before[i] == s;
    }
    assert all[|before|] == last;
    if exists i :: 0 <= i < |before| && before[i].hash == s.hash {
      var i :| 0 <= i < |before| && before[i].hash == s.hash;
      assert all[i].hash == s.hash;
    }
  }

  lemma QueryWords(queries: seq<string>, w: string)
    ensures w in QueryTokens(queries) <==> InTags(queries, w)
  {
    if InTags(queries, w) {
      var i :| 0 <= i < |queries| && w in Words(Lower(Strip(queries[i])));
      assert Lower(Strip("")) == "";
      assert queries[i] in queries && w in Tokenize(queries[i]);
    }
  }

  /** A lookup finds the shards that were added first for their hash and share a word with the query. */
  lemma LookupFinds(added: seq<Shard>, queries: seq<string>, budget: nat, s: Shard)
    ensures s in Scan(added, QueryTokens(queries), budget) <==>
      && AddedFirst(added, s)
      && exists w :: InTags(queries, w) && (InTags(s.topicTags, w) || Leads(Words(Lower(s.content)), budget, w))
  {
    var tokens := QueryTokens(queries);
    SameElements(Matching(Firsts(added), tokens, budget), NewestFirst);
    FirstsAre(added, s);
    if ShardTokens(s, budget) * tokens != {} {
      var w :| w in ShardTokens(s, budget) * tokens;
      QueryWords(queries, w);
      FoundBy(s, budget, w);
    }
    if exists w :: InTags(queries, w) && (InTags(s.topicTags, w) || Leads(Words(Lower(s.content)), budget, w)) {
      var w :| InTags(queries, w) && (InTags(s.topicTags, w) || Leads(Words(Lower(s.content)), budget, w));
      QueryWords(queries, w);
      FoundBy(s, budget, w);
      assert w in ShardTokens(s, budget) * tokens;
    }
  }

  /** It lists the later creation times first, and by hash among equal ones; no hash comes twice. */
  lemma LookupOrder(added: seq<Shard>, tokens: set<string>, budget: nat, i: nat, j: nat)
    requires i < j < |Scan(added, tokens, budget)|
    ensures var a, b := Scan(added, tokens, budget)[i], Scan(added, tokens, budget)[j];
      && LexLe(b.createdAt, a.createdAt)
      && (a.createdAt == b.createdAt ==> LexLe(a.hash, b.hash))
      && a.hash != b.hash
  {
    var m := Matching(Firsts(added), tokens, budget);
    NewestFirstPreorder();
    StableSortSorts(m, NewestFirst);
    MatchingIsDistinct(added, tokens, budget);
    StableSortKeepsPairwise(m, NewestFirst, HashesDiffer);
    var a, b := Scan(added, tokens, budget)[i], Scan(added, tokens, budget)[j];
    assert NewestFirst(a, b) && HashesDiffer(a, b);
    LexTotal(a.createdAt, b.createdAt);
  }
}
