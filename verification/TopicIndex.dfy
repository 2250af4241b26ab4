/** The inverse index from words to shards
    (packages/agent-memory/src/yule_agent_memory/topic_index.py). */
module TopicIndex {
  import opened MemoryModel
  import opened Sequences
  import opened Sorting
  import opened Text

  function TagTokens(tags: seq<string>): set<string> {
    set t, w | t in tags && w in Tokenize(t) :: w
  }

  function Head(words: seq<string>, budget: nat): seq<string> {
    if budget < |words| then words[..budget] else words
  }

  /** The words a shard is found by: those of its tags, and the leading words of its content. */
  function ShardTokens(s: Shard, budget: nat): set<string> {
    TagTokens(s.topicTags) + (set w | w in Head(Words(Lower(s.content)), budget))
  }

  /** The words of a query: each non-empty entry is split. */
  function QueryTokens(queries: seq<string>): set<string> {
    set q, w | q in queries && q != "" && w in Tokenize(q) :: w
  }

  // ---------------------------------------------------------------------------------------------
  // The linear scan
  // ---------------------------------------------------------------------------------------------

  /** The shards added first for their hash, in order of addition. */
  function Firsts(added: seq<Shard>): seq<Shard> {
    if added == [] then []
    else
      var before := Firsts(added[..|added| - 1]);
      var last := added[|added| - 1];
      if exists s :: s in before && s.hash == last.hash then before else before + [last]
  }

  /** Newest first, and by hash among equally new ones. */
  predicate NewestFirst(a: Shard, b: Shard) {
    if a.createdAt != b.createdAt then LexLe(b.createdAt, a.createdAt) else LexLe(a.hash, b.hash)
  }

  function Matching(shards: seq<Shard>, tokens: set<string>, budget: nat): (r: seq<Shard>)
    ensures forall s :: s in r <==> s in shards && ShardTokens(s, budget) * tokens != {}
  {
    if shards == [] then []
    else
      assert shards == [shards[0]] + shards[1..];
      (if ShardTokens(shards[0], budget) * tokens != {} then [shards[0]] else [])
      + Matching(shards[1..], tokens, budget)
  }

  /** What a lookup means: scan the shards, keep those sharing a word with the query, newest first. */
  function Scan(added: seq<Shard>, tokens: set<string>, budget: nat): seq<Shard> {
    StableSort(Matching(Firsts(added), tokens, budget), NewestFirst)
  }

  // ---------------------------------------------------------------------------------------------
  // The index
  // ---------------------------------------------------------------------------------------------

  predicate CreatedThenHash(a: Shard, b: Shard) {
    if a.createdAt != b.createdAt then LexLe(a.createdAt, b.createdAt) else LexLe(a.hash, b.hash)
  }

  predicate CreatedDescending(a: Shard, b: Shard) { LexLe(b.createdAt, a.createdAt) }

  /** The inverse map sends a word to a hash. */
  predicate Maps(inverse: map<string, set<Key>>, w: string, h: Key) {
    w in inverse && h in inverse[w]
  }

  class TopicIndex {
    var inverse: map<string, set<Key>>
    var shardsByHash: map<Key, Shard>
    const budget: nat
    ghost var added: seq<Shard>

    /** The dictionary holds the first shard of each hash, and the inverse map its words. */
    ghost predicate Valid()
      reads this
    {
      && (forall h :: h in shardsByHash ==> shardsByHash[h] in Firsts(added) && shardsByHash[h].hash == h)
      && (forall s :: s in Firsts(added) ==> s.hash in shardsByHash && shardsByHash[s.hash] == s)
      && (forall w, h :: Maps(inverse, w, h) <==> h in shardsByHash && w in ShardTokens(shardsByHash[h], budget))
    }

    constructor (contentTokenBudget: int)
      ensures Valid() && added == [] && budget == if contentTokenBudget < 0 then 0 else contentTokenBudget
    {
      inverse, shardsByHash, added := map[], map[], [];
      budget := if contentTokenBudget < 0 then 0 else contentTokenBudget;
    }

    /** Adding a hash that is already there changes nothing the index shows. */
    method Add(shard: Shard)
      requires Valid()
      modifies this
      ensures Valid() && added == old(added) + [shard]
      ensures shard.hash in old(shardsByHash) ==> inverse == old(inverse) && shardsByHash == old(shardsByHash)
    {
      assert (added + [shard])[..|added|] == added;
      if shard.hash in shardsByHash {
        assert shardsByHash[shard.hash] in Firsts(added);
        added := added + [shard];
        return;
      }
      assert forall s :: s in Firsts(added) ==> s.hash != shard.hash;
      assert Firsts(added + [shard]) == Firsts(added) + [shard];
      added := added + [shard];
      shardsByHash := shardsByHash[shard.hash := shard];
      RecordTokens(shard.hash, ShardTokens(shard, budget));
    }

    method RecordTokens(hash: Key, tokens: set<string>)
      modifies this`inverse
      ensures forall w, h :: Maps(inverse, w, h) <==> Maps(old(inverse), w, h) || (h == hash && w in tokens)
    {
      var todo := tokens;
      while todo != {}
        invariant todo <= tokens
        invariant forall w, h :: Maps(inverse, w, h) <==> Maps(old(inverse), w, h) || (h == hash && w in tokens - todo)
      {
        var w :| w in todo;
        todo := todo - {w};
        inverse := inverse[w := (if w in inverse then inverse[w] else {}) + {hash}];
      }
    }

    /** The hashes that share a word with the query. */
    method Candidates(tokens: set<string>) returns (hashes: set<Key>)
      requires Valid()
      ensures forall h :: h in hashes <==> h in shardsByHash && ShardTokens(shardsByHash[h], budget) * tokens != {}
    {
      hashes := {};
      var todo := tokens;
      while todo != {}
        invariant todo <= tokens
        invariant forall h :: h in hashes <==>
          h in shardsByHash && ShardTokens(shardsByHash[h], budget) * (tokens - todo) != {}
      {
        var w :| w in todo;
        forall h | h in shardsByHash
          ensures ShardTokens(shardsByHash[h], budget) * (tokens - (todo - {w})) != {} <==>
            ShardTokens(shardsByHash[h], budget) * (tokens - todo) != {} || Maps(inverse, w, h)
        {
          var shared := ShardTokens(shardsByHash[h], budget) * (tokens - (todo - {w}));
          var before := ShardTokens(shardsByHash[h], budget) * (tokens - todo);
          assert shared == if Maps(inverse, w, h) then before + {w} else before;
        }
        assert forall h :: Maps(inverse, w, h) ==> h in shardsByHash;
        todo := todo - {w};
        hashes := hashes + if w in inverse then inverse[w] else {};
      }
      assert tokens - todo == tokens;
    }

    /** The shards of some hashes, in no particular order. */
    method ShardsOf(hashes: set<Key>) returns (r: seq<Shard>)
      requires Valid() && forall h :: h in hashes ==> h in shardsByHash
      ensures NoDuplicates(r)
      ensures forall s :: s in r <==> s.hash in hashes && shardsByHash[s.hash] == s
    {
      r := [];
      var left := hashes;
      while left != {}
        invariant left <= hashes && NoDuplicates(r)
        invariant forall s :: s in r <==> s.hash in hashes - left && shardsByHash[s.hash] == s
      {
        var h :| h in left;
        left := left - {h};
        r := r + [shardsByHash[h]];
      }
    }

    /** The two successive sorts of the candidates give the scan's order, whatever order the set of
        candidates is listed in. */
    method Lookup(queries: seq<string>) returns (r: seq<Shard>)
      requires Valid()
      ensures r == Scan(added, QueryTokens(queries), budget)
    {
      var tokens := QueryTokens(queries);
      if tokens == {} {
        NoTokensNoMatch(Firsts(added), budget);
        return [];
      }
      var hashes := Candidates(tokens);
      r := ShardsOf(hashes);
      forall s ensures s in r <==> s in Matching(Firsts(added), tokens, budget) {
        assert s in Firsts(added) <==> s.hash in shardsByHash && shardsByHash[s.hash] == s;
      }
      TwoSortsScan(r, added, tokens, budget);
      r := StableSort(r, CreatedThenHash);
      r := StableSort(r, CreatedDescending);
    }
  }

  // ---------------------------------------------------------------------------------------------
  // Why the two sorts are the scan
  // ---------------------------------------------------------------------------------------------

  lemma {:induction false} NoTokensNoMatch(shards: seq<Shard>, budget: nat)
    ensures Matching(shards, {}, budget) == []
  {
    if shards != [] { NoTokensNoMatch(shards[1..], budget); }
  }

  lemma CreatedThenHashPreorder()
    ensures Preorder(CreatedThenHash)
  {
    forall a, b ensures CreatedThenHash(a, b) || CreatedThenHash(b, a) {
      LexTotal(a.createdAt, b.createdAt);
      LexTotal(a.hash, b.hash);
    }
    forall a, b, c | CreatedThenHash(a, b) && CreatedThenHash(b, c) ensures CreatedThenHash(a, c) {
      LexFacts(a.createdAt, b.createdAt, c.createdAt);
      LexFacts(a.hash, b.hash, c.hash);
    }
  }

  lemma LexFacts(a: Key, b: Key, c: Key)
    ensures LexLe(a, b) && LexLe(b, c) ==> LexLe(a, c)
    ensures LexLe(a, b) && LexLe(b, a) ==> a == b
    ensures LexLe(b, c) && LexLe(c, b) ==> b == c
    ensures LexLe(a, b) && LexLe(b, c) && a == c ==> a == b
  {
    if LexLe(a, b) && LexLe(b, c) { LexTransitive(a, b, c); }
    if LexLe(a, b) && LexLe(b, a) { LexAntisymmetric(a, b); }
    if LexLe(b, c) && LexLe(c, b) { LexAntisymmetric(b, c); }
  }

  lemma CreatedDescendingPreorder()
    ensures Preorder(CreatedDescending)
  {
    forall a, b ensures CreatedDescending(a, b) || CreatedDescending(b, a) { LexTotal(a.createdAt, b.createdAt); }
    forall a, b, c | CreatedDescending(a, b) && CreatedDescending(b, c) ensures CreatedDescending(a, c) {
      LexTransitive(c.createdAt, b.createdAt, a.createdAt);
    }
  }

  lemma NewestFirstPreorder()
    ensures Preorder(NewestFirst)
  {
    forall a, b ensures NewestFirst(a, b) || NewestFirst(b, a) {
      LexTotal(a.createdAt, b.createdAt);
      LexTotal(a.hash, b.hash);
    }
    forall a, b, c | NewestFirst(a, b) && NewestFirst(b, c) ensures NewestFirst(a, c) {
      LexFacts(c.createdAt, b.createdAt, a.createdAt);
      LexFacts(a.hash, b.hash, c.hash);
    }
  }

  /** Sorting by creation time and hash, then stably by creation time descending, sorts newest first
      and by hash among equally new shards: the second sort reverses only the first field. */
  lemma TwoSortsAreNewestFirst(shards: seq<Shard>)
    ensures SortedBy(StableSort(StableSort(shards, CreatedThenHash), CreatedDescending), NewestFirst)
  {
    CreatedThenHashPreorder();
    CreatedDescendingPreorder();
    StableSortSorts(shards, CreatedThenHash);
    var once := StableSort(shards, CreatedThenHash);
    StableSortRefines(once, CreatedDescending, CreatedThenHash);
    var twice := StableSort(once, CreatedDescending);
    forall i, j | 0 <= i < j < |twice| ensures NewestFirst(twice[i], twice[j]) {
      assert Refined(CreatedDescending, CreatedThenHash, twice[i], twice[j]);
    }
  }

  predicate HashesDiffer(a: Shard, b: Shard) { a.hash != b.hash }

  lemma {:induction false} FirstsDistinct(added: seq<Shard>)
    ensures Pairwise(Firsts(added), HashesDiffer)
  {
    if added != [] {
      FirstsDistinct(added[..|added| - 1]);
      var before := Firsts(added[..|added| - 1]);
      assert forall i :: 0 <= i < |before| ==> before[i] in before;
    }
  }

  lemma {:induction false} MatchingDistinct(shards: seq<Shard>, tokens: set<string>, budget: nat)
    requires Pairwise(shards, HashesDiffer)
    ensures Pairwise(Matching(shards, tokens, budget), HashesDiffer)
  {
    if shards != [] {
      var tail := shards[1..];
      assert shards == [shards[0]] + tail;
      PairwiseCons(shards[0], tail, HashesDiffer);
      MatchingDistinct(tail, tokens, budget);
      PairwiseCons(shards[0], Matching(tail, tokens, budget), HashesDiffer);
    }
  }

  lemma TiesAreEqual(shards: seq<Shard>, x: Shard, y: Shard)
    requires Pairwise(shards, HashesDiffer) && x in shards && y in shards
    requires NewestFirst(x, y) && NewestFirst(y, x)
    ensures x == y
  {
    LexFacts(x.createdAt, y.createdAt, x.createdAt);
    LexFacts(x.hash, y.hash, x.hash);
    var i :| 0 <= i < |shards| && shards[i] == x;
    var j :| 0 <= j < |shards| && shards[j] == y;
    assert !HashesDiffer(shards[i], shards[j]) && !HashesDiffer(shards[j], shards[i]);
  }

  lemma MatchingIsDistinct(added: seq<Shard>, tokens: set<string>, budget: nat)
    ensures Pairwise(Matching(Firsts(added), tokens, budget), HashesDiffer)
    ensures NoDuplicates(Matching(Firsts(added), tokens, budget))
  {
    FirstsDistinct(added);
    MatchingDistinct(Firsts(added), tokens, budget);
    var m := Matching(Firsts(added), tokens, budget);
    forall i, j | 0 <= i < j < |m| ensures m[i] != m[j] { assert HashesDiffer(m[i], m[j]); }
  }

  /** Any listing of the matching shards, sorted twice, is the scan. */
  lemma TwoSortsScan(candidates: seq<Shard>, added: seq<Shard>, tokens: set<string>, budget: nat)
    requires NoDuplicates(candidates)
    requires forall s :: s in candidates <==> s in Matching(Firsts(added), tokens, budget)
    ensures StableSort(StableSort(candidates, CreatedThenHash), CreatedDescending) == Scan(added, tokens, budget)
  {
    var m := Matching(Firsts(added), tokens, budget);
    MatchingIsDistinct(added, tokens, budget);
    SameMembersSameMultiset(candidates, m);
    SortsOfSameShards(candidates, m);
  }

  lemma SortsOfSameShards(candidates: seq<Shard>, m: seq<Shard>)
    requires multiset(candidates) == multiset(m) && Pairwise(m, HashesDiffer)
    ensures StableSort(StableSort(candidates, CreatedThenHash), CreatedDescending) == StableSort(m, NewestFirst)
  {
    var once := StableSort(candidates, CreatedThenHash);
    var twice := StableSort(once, CreatedDescending);
    StableSortPermutes(candidates, CreatedThenHash);
    StableSortPermutes(once, CreatedDescending);
    StableSortPermutes(m, NewestFirst);
    TwoSortsAreNewestFirst(candidates);
    NewestFirstPreorder();
    StableSortSorts(m, NewestFirst);
    forall x, y | x in twice && y in twice && NewestFirst(x, y) && NewestFirst(y, x) ensures x == y {
      assert x in multiset(m) && y in multiset(m);
      TiesAreEqual(m, x, y);
    }
    SortedPermutationUnique(twice, StableSort(m, NewestFirst), NewestFirst);
  }
}
