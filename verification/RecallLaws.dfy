/** Which session a message is attached to, and which are offered
    (packages/agent-runtime/src/yule_agent_runtime/recall.py, lines 359-493): every outcome of a recall,
    said of the listed sessions. */
module RecallLaws {
  import opened Recall
  import opened Sequences
  import opened Sorting
  import opened Wrappers

  /** The open sessions keep the order of the listing. */
  lemma OpenInOrder(a: seq<Session>, b: seq<Session>)
    ensures OpenSessions(None) == [] && OpenSessions(Some(a + b)) == OpenSessions(Some(a)) + OpenSessions(Some(b))
    ensures forall s :: OpenSessions(Some([s])) == if s.state == Open then [s] else []
  {
    SelectAppend(a, b, IsOpen);
    assert forall s: Session :: [s][1..] == [];
  }

  // ---------------------------------------------------------------------------------------------
  // The score
  // ---------------------------------------------------------------------------------------------

  /** The field at `i` is the first of those that share most words with the message. */
  ghost predicate FirstLargest(words: set<string>, fields: seq<Field>, i: nat) {
    && i < |fields| && words * fields[i].words != {}
    && (forall j :: 0 <= j < i ==> |words * fields[j].words| < |words * fields[i].words|)
    && (forall j :: i < j < |fields| ==> |words * fields[j].words| <= |words * fields[i].words|)
  }

  /** The score is the share of the message's words found in the best field, and a tenth more, up to 1, when
      that field is the prompt and holds two of them or more. */
  lemma ScoreIs(words: set<string>, s: Session, i: nat)
    requires FirstLargest(words, s.fields, i)
    ensures words != {}
    ensures var n := |words * s.fields[i].words|; var share := n as real / |words| as real;
      Score(words, s) == if s.fields[i].name != "prompt" || n < 2 then share
                         else if share + 0.1 < 1.0 then share + 0.1 else 1.0
  {
    var b := BestField(words, s.fields);
    BestFieldIsMaximal(words, s.fields);
    assert s.fields[i] in s.fields && |words * s.fields[i].words| > 0;
    var k: nat :| FirstBestField(words, s.fields, b, k);
    assert s.fields[k] in s.fields;
    assert k == i;
  }

  lemma NoSharedWordScoresNothing(words: set<string>, s: Session)
    requires forall f :: f in s.fields ==> words * f.words == {}
    ensures Score(words, s) == 0.0
  {
    ScoreInUnit(words, s);
  }

  /** A clear winner, in numbers. */
  lemma ClearWinnerMeans(sessions: seq<Session>, words: set<string>, i: nat)
    ensures ClearWinner(sessions, words, i) <==>
      && i < |sessions| && Score(words, sessions[i]) >= 0.20
      && forall j :: 0 <= j < |sessions| && j != i ==> Score(words, sessions[i]) >= Score(words, sessions[j]) + 0.10
  {}

  // ---------------------------------------------------------------------------------------------
  // Work that goes on
  // ---------------------------------------------------------------------------------------------

  /** The session at `i` is the first in a thread. */
  ghost predicate FirstInThread(sessions: seq<Session>, threadId: Option<int>, i: nat) {
    && threadId.Some? && i < |sessions| && sessions[i].threadId == threadId
    && forall j :: 0 <= j < i ==> sessions[j].threadId != threadId
  }

  lemma {:induction false} ThreadAnchorIs(sessions: seq<Session>, threadId: Option<int>, i: nat)
    requires FirstInThread(sessions, threadId, i)
    ensures ThreadAnchor(sessions, threadId) == Some(sessions[i])
  {
    if i > 0 { ThreadAnchorIs(sessions[1..], threadId, i - 1); }
  }

  lemma NoThreadAnchor(sessions: seq<Session>, threadId: Option<int>)
    requires !InThread(sessions, threadId)
    ensures ThreadAnchor(sessions, threadId) == None
  {}

  /** The first open session in the thread of the message is attached with high confidence, and the first
      five open sessions are offered. */
  lemma ThreadDecides(listed: Option<seq<Session>>, m: Message, i: nat)
    requires !m.newWork && FirstInThread(OpenSessions(listed), m.threadId, i)
    ensures var open := OpenSessions(listed);
      Recalled(listed, m) == Outcome(Some(open[i]), if |open| <= 5 then open else open[..5], High)
  {
    ThreadAnchorIs(OpenSessions(listed), m.threadId, i);
  }

  /** Otherwise a clear winner is attached, with high confidence from a score of 0.45 on. */
  lemma WinnerDecides(listed: Option<seq<Session>>, m: Message, i: nat)
    requires var open := OpenSessions(listed);
      !m.newWork && !InThread(open, m.threadId) && ClearWinner(open, m.words, i)
    ensures var open, r := OpenSessions(listed), Recalled(listed, m);
      && r.matched == Some(open[i])
      && r.confidence == if Score(m.words, open[i]) >= 0.45 then High else Medium
  {
    var open := OpenSessions(listed);
    NoThreadAnchor(open, m.threadId);
    ClearWinnerIsMatched(open, m.words, i);
    RankedAre(m.words, open);
  }

  /** The session at `i` is the first of those updated last. */
  ghost predicate FirstLatest(sessions: seq<Session>, i: nat) {
    && i < |sessions|
    && (forall j :: 0 <= j < i ==> sessions[j].updatedAt < sessions[i].updatedAt)
    && (forall j :: i < j < |sessions| ==> sessions[j].updatedAt <= sessions[i].updatedAt)
  }

  lemma {:induction false} MostRecentIs(sessions: seq<Session>, i: nat)
    requires FirstLatest(sessions, i)
    ensures MostRecent(sessions) == sessions[i]
  {
    if |sessions| > 1 {
      var rest := sessions[1..];
      assert sessions == [sessions[0]] + rest;
      if i > 0 {
        assert forall j :: 0 <= j < |rest| ==> rest[j] == sessions[j + 1];
        MostRecentIs(rest, i - 1);
      } else {
        assert MostRecent(rest) in rest;
      }
    }
  }

  /** Otherwise, when no open session shares a word with a message that points to recent work, the one
      updated last is attached with medium confidence, and alone is offered. */
  lemma RecencyDecides(listed: Option<seq<Session>>, m: Message, i: nat)
    requires var open := OpenSessions(listed);
      !m.newWork && !InThread(open, m.threadId) && ShareNoWord(open, m.words) && m.recencyCue && FirstLatest(open, i)
    ensures var open := OpenSessions(listed);
      Recalled(listed, m) == Outcome(Some(open[i]), [open[i]], Medium)
  {
    var open := OpenSessions(listed);
    NoThreadAnchor(open, m.threadId);
    NoneScoredIff(open, m.words);
    MostRecentIs(open, i);
  }

  /** Without a shared word and without such a cue, nothing is attached or offered. */
  lemma NothingShared(listed: Option<seq<Session>>, m: Message)
    requires var open := OpenSessions(listed);
      !m.newWork && !InThread(open, m.threadId) && ShareNoWord(open, m.words) && (open == [] || !m.recencyCue)
    ensures Recalled(listed, m) == Outcome(None, [], Low)
  {
    var open := OpenSessions(listed);
    NoThreadAnchor(open, m.threadId);
    NoneScoredIff(open, m.words);
  }

  /** Without a clear winner among sessions that share words, none is attached. */
  lemma NoWinnerDecides(listed: Option<seq<Session>>, m: Message)
    requires var open := OpenSessions(listed);
      !m.newWork && !InThread(open, m.threadId) && !ShareNoWord(open, m.words)
      && forall i: nat :: !ClearWinner(open, m.words, i)
    ensures Recalled(listed, m).matched == None && Recalled(listed, m).confidence == Low
  {
    var open := OpenSessions(listed);
    NoThreadAnchor(open, m.threadId);
    NoneScoredIff(open, m.words);
    ScoringAttachesIff(open, m);
    RankedAre(m.words, open);
  }

  // ---------------------------------------------------------------------------------------------
  // What is offered when the sessions are scored
  // ---------------------------------------------------------------------------------------------

  /** The session at place `i` goes before the one at place `j`: a higher score, or the same and listed
      earlier. */
  ghost predicate GoesBefore(open: seq<Session>, words: set<string>, i: nat, j: nat)
    requires i < |open| && j < |open|
  {
    Score(words, open[i]) > Score(words, open[j]) || (Score(words, open[i]) == Score(words, open[j]) && i < j)
  }

  predicate EarlierPlace(a: Scored, b: Scored) { a.index < b.index }

  lemma {:induction false} ScoredByPlace(words: set<string>, sessions: seq<Session>)
    ensures SortedBy(ScoredFrom(words, sessions), EarlierPlace)
  {
    if sessions != [] {
      var n := |sessions| - 1;
      var before := ScoredFrom(words, sessions[..n]);
      ScoredByPlace(words, sessions[..n]);
      forall i | 0 <= i < |before| ensures before[i].index < n { ScoredAre(words, sessions[..n], before[i]); }
    }
  }

  /** Ranked: by score, and by place among equal scores. */
  lemma RankedGoBefore(words: set<string>, open: seq<Session>, k: nat, l: nat)
    requires k < l < |StableSort(ScoredFrom(words, open), HigherScore)|
    ensures var ranked := StableSort(ScoredFrom(words, open), HigherScore); var a, b := ranked[k], ranked[l];
      && ScoredAt(words, open, a) && ScoredAt(words, open, b)
      && GoesBefore(open, words, a.index, b.index) && a.index != b.index
  {
    var scored := ScoredFrom(words, open);
    var ranked := StableSort(scored, HigherScore);
    RankedAre(words, open);
    ScoredByPlace(words, open);
    StableSortRefines(scored, HigherScore, EarlierPlace);
    assert ranked[k] in ranked && ranked[l] in ranked;
    assert Refined(HigherScore, EarlierPlace, ranked[k], ranked[l]);
  }

  /** `places` lists the candidates' places among the open sessions: sessions that share a word with the
      message, each going before the next. */
  ghost predicate OfferedAt(open: seq<Session>, words: set<string>, candidates: seq<Session>, places: seq<nat>) {
    && |places| == |candidates|
    && (forall k :: 0 <= k < |places| ==>
          places[k] < |open| && candidates[k] == open[places[k]] && Score(words, candidates[k]) > 0.0)
    && (forall k, l :: 0 <= k < l < |places| ==>
          places[k] < |open| && places[l] < |open| && GoesBefore(open, words, places[k], places[l]))
  }

  /** Nothing that shares a word is left out while fewer than five are offered, and nothing left out goes
      before one offered. */
  ghost predicate NoBetterOffer(open: seq<Session>, words: set<string>, places: seq<nat>) {
    forall i: nat :: i < |open| && Score(words, open[i]) > 0.0 && i !in places ==>
      |places| == 5 && forall k :: 0 <= k < |places| ==> places[k] < |open| && GoesBefore(open, words, places[k], i)
  }

  function Ranking(words: set<string>, open: seq<Session>): seq<Scored> {
    StableSort(ScoredFrom(words, open), HigherScore)
  }

  function Places(ranked: seq<Scored>, n: nat): (r: seq<nat>)
    requires n <= |ranked|
    ensures |r| == n && forall k :: 0 <= k < n ==> r[k] == ranked[k].index
  {
    seq(n, k requires 0 <= k < n => ranked[k].index)
  }

  lemma LeadingAreOffered(words: set<string>, open: seq<Session>)
    ensures var ranked := Ranking(words, open);
      OfferedAt(open, words, Leading(ranked), Places(ranked, |Leading(ranked)|))
  {
    var ranked := Ranking(words, open);
    var n := |Leading(ranked)|;
    RankedAre(words, open);
    forall k | 0 <= k < n ensures ScoredAt(words, open, ranked[k]) { assert ranked[k] in ranked; }
    forall k, l | 0 <= k < l < n ensures GoesBefore(open, words, ranked[k].index, ranked[l].index) {
      RankedGoBefore(words, open, k, l);
    }
  }

  lemma LeftOutGoesLater(words: set<string>, open: seq<Session>, i: nat, k: nat)
    requires i < |open| && Score(words, open[i]) > 0.0 && k < |Leading(Ranking(words, open))|
    requires i !in Places(Ranking(words, open), |Leading(Ranking(words, open))|)
    ensures var ranked := Ranking(words, open);
      |Leading(ranked)| == 5 && ranked[k].index < |open| && GoesBefore(open, words, ranked[k].index, i)
  {
    var ranked := Ranking(words, open);
    var n := |Leading(ranked)|;
    var l := RankOf(words, open, i);
    var places := Places(ranked, n);
    assert forall j :: 0 <= j < n ==> places[j] == ranked[j].index && places[j] in places;
    assert l >= n;
    RankedGoBefore(words, open, k, l);
  }

  lemma RankOf(words: set<string>, open: seq<Session>, i: nat) returns (l: nat)
    requires i < |open| && Score(words, open[i]) > 0.0
    ensures l < |Ranking(words, open)| && Ranking(words, open)[l].index == i
  {
    RankedAre(words, open);
    var x := Scored(Score(words, open[i]), i, open[i]);
    assert x in Ranking(words, open);
    l :| 0 <= l < |Ranking(words, open)| && Ranking(words, open)[l] == x;
  }

  lemma LeadingAreBest(words: set<string>, open: seq<Session>)
    requires ScoredFrom(words, open) != []
    ensures var ranked := Ranking(words, open);
      NoBetterOffer(open, words, Places(ranked, |Leading(ranked)|))
  {
    var ranked := Ranking(words, open);
    var n := |Leading(ranked)|;
    var places := Places(ranked, n);
    RankedAre(words, open);
    forall i: nat | i < |open| && Score(words, open[i]) > 0.0 && i !in places
      ensures n == 5 && forall k :: 0 <= k < n ==> places[k] < |open| && GoesBefore(open, words, places[k], i)
    {
      LeftOutGoesLater(words, open, i, 0);
      forall k | 0 <= k < n ensures places[k] < |open| && GoesBefore(open, words, places[k], i) {
        LeftOutGoesLater(words, open, i, k);
      }
    }
  }

  /** When neither a thread nor the lack of any shared word decides, the five best scores are offered. */
  lemma FiveBestAreOffered(listed: Option<seq<Session>>, m: Message) returns (places: seq<nat>)
    requires var open := OpenSessions(listed);
      !m.newWork && !InThread(open, m.threadId) && !ShareNoWord(open, m.words)
    ensures var open, candidates := OpenSessions(listed), Recalled(listed, m).candidates;
      |candidates| <= 5 && OfferedAt(open, m.words, candidates, places) && NoBetterOffer(open, m.words, places)
  {
    var open := OpenSessions(listed);
    var ranked := Ranking(m.words, open);
    NoThreadAnchor(open, m.threadId);
    NoneScoredIff(open, m.words);
    RankedAre(m.words, open);
    LeadingAreOffered(m.words, open);
    LeadingAreBest(m.words, open);
    assert Recalled(listed, m).candidates == Leading(ranked);
    places := Places(ranked, |Leading(ranked)|);
  }

  // ---------------------------------------------------------------------------------------------
  // New work
  // ---------------------------------------------------------------------------------------------

  ghost predicate InChannel(sessions: seq<Session>, channelId: Option<int>) {
    channelId.Some? && exists s :: s in sessions && s.channelId == channelId
  }

  /** The session at `i` is the first in a channel. */
  ghost predicate FirstInChannel(sessions: seq<Session>, channelId: Option<int>, i: nat) {
    && channelId.Some? && i < |sessions| && sessions[i].channelId == channelId
    && forall j :: 0 <= j < i ==> sessions[j].channelId != channelId
  }

  lemma {:induction false} ChannelAnchorIs(sessions: seq<Session>, channelId: Option<int>, i: nat)
    requires FirstInChannel(sessions, channelId, i)
    ensures ChannelAnchor(sessions, channelId) == Some(sessions[i])
  {
    if i > 0 { ChannelAnchorIs(sessions[1..], channelId, i - 1); }
  }

  lemma {:induction false} NoChannelAnchor(sessions: seq<Session>, channelId: Option<int>)
    requires !InChannel(sessions, channelId)
    ensures ChannelAnchor(sessions, channelId) == None
  {
    if channelId.Some? && sessions != [] {
      assert sessions == [sessions[0]] + sessions[1..];
      NoChannelAnchor(sessions[1..], channelId);
    }
  }

  /** New work is attached to nothing. The first open session in its thread is offered, or else the first
      in its channel, or else none. */
  lemma NewWorkIsOffered(listed: Option<seq<Session>>, m: Message)
    requires m.newWork
    ensures var open, r := OpenSessions(listed), Recalled(listed, m);
      && r.matched == None && r.confidence == Low
      && (forall i: nat :: FirstInThread(open, m.threadId, i) ==> r.candidates == [open[i]])
      && (forall i: nat :: !InThread(open, m.threadId) && FirstInChannel(open, m.channelId, i) ==>
            r.candidates == [open[i]])
      && (!InThread(open, m.threadId) && !InChannel(open, m.channelId) ==> r.candidates == [])
  {
    var open := OpenSessions(listed);
    forall i: nat | FirstInThread(open, m.threadId, i) ensures ThreadAnchor(open, m.threadId) == Some(open[i]) {
      ThreadAnchorIs(open, m.threadId, i);
    }
    if !InThread(open, m.threadId) { NoThreadAnchor(open, m.threadId); }
    forall i: nat | FirstInChannel(open, m.channelId, i) ensures ChannelAnchor(open, m.channelId) == Some(open[i]) {
      ChannelAnchorIs(open, m.channelId, i);
    }
    if !InChannel(open, m.channelId) { NoChannelAnchor(open, m.channelId); }
  }
}
