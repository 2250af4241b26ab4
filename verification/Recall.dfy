/** Matching a message to an open session
    (packages/agent-runtime/src/yule_agent_runtime/recall.py, lines 359-493 and 547-656).

    Texts are already split into sets of words; scores are real numbers. */
module Recall {
  import opened Sequences
  import opened Sorting
  import opened Wrappers

  const SCORE_HIGH := 0.45
  const SCORE_MEDIUM := 0.20
  const AMBIGUITY_MARGIN := 0.10
  const MAX_CANDIDATES := 5

  /** A labelled text of a session. */
  datatype Field = Field(name: string, words: set<string>)

  datatype State = Open | Completed | Rejected

  datatype Session = Session(id: string, state: State, threadId: Option<int>, channelId: Option<int>,
                             updatedAt: int, fields: seq<Field>)

  predicate IsOpen(s: Session) { s.state == Open }

  // ---------------------------------------------------------------------------------------------
  // The score of one session
  // ---------------------------------------------------------------------------------------------

  datatype Best = Best(overlap: nat, name: string)

  /** The best overlap so far; a later field must be strictly better to replace it. */
  function Improve(best: Best, prompt: set<string>, f: Field): Best {
    if |prompt * f.words| > best.overlap then Best(|prompt * f.words|, f.name) else best
  }

  function BestField(prompt: set<string>, fields: seq<Field>): Best {
    if fields == [] then Best(0, "")
    else Improve(BestField(prompt, fields[..|fields| - 1]), prompt, fields[|fields| - 1])
  }

  function ScoreOfBest(prompt: set<string>, best: Best): real {
    if prompt == {} || best.overlap == 0 then 0.0
    else
      var score := best.overlap as real / |prompt| as real;
      if best.name == "prompt" && best.overlap >= 2 then (if score + 0.1 > 1.0 then 1.0 else score + 0.1) else score
  }

  function Score(prompt: set<string>, s: Session): real {
    ScoreOfBest(prompt, BestField(prompt, s.fields))
  }

  method ScoreSession(prompt: set<string>, s: Session) returns (score: real)
    ensures score == Score(prompt, s)
  {
    if prompt == {} {
      return 0.0;
    }
    var best := Best(0, "");
    for i := 0 to |s.fields|
      invariant best == BestField(prompt, s.fields[..i])
    {
      assert s.fields[..i + 1][..i] == s.fields[..i];
      if s.fields[i].words == {} {
        assert prompt * s.fields[i].words == {};
        continue;
      }
      if |prompt * s.fields[i].words| > best.overlap {
        best := Best(|prompt * s.fields[i].words|, s.fields[i].name);
      }
    }
    assert s.fields[..|s.fields|] == s.fields;
    return ScoreOfBest(prompt, best);
  }

  /** The field of the best overlap is the first one that has it. */
  ghost predicate FirstBestField(prompt: set<string>, fields: seq<Field>, b: Best, i: nat) {
    && i < |fields| && |prompt * fields[i].words| == b.overlap && fields[i].name == b.name
    && forall j :: 0 <= j < i ==> |prompt * fields[j].words| < b.overlap
  }

  lemma {:induction false} BestFieldIsMaximal(prompt: set<string>, fields: seq<Field>)
    ensures var b := BestField(prompt, fields);
      && (forall f :: f in fields ==> |prompt * f.words| <= b.overlap)
      && (b.overlap > 0 ==> exists i: nat :: FirstBestField(prompt, fields, b, i))
      && b.overlap <= |prompt|
  {
    if fields != [] {
      var n := |fields| - 1;
      var before := BestField(prompt, fields[..n]);
      assert fields == fields[..n] + [fields[n]];
      BestFieldIsMaximal(prompt, fields[..n]);
      OverlapBound(prompt, fields[n].words);
      var b := BestField(prompt, fields);
      if b != before {
        assert FirstBestField(prompt, fields, b, n) by {
          forall j | 0 <= j < n ensures |prompt * fields[j].words| < b.overlap { assert fields[j] in fields[..n]; }
        }
      } else if b.overlap > 0 {
        var i: nat :| FirstBestField(prompt, fields[..n], before, i);
        assert FirstBestField(prompt, fields, b, i);
      }
    }
  }

  lemma OverlapBound(a: set<string>, b: set<string>)
    ensures |a * b| <= |a|
  {
    assert a == a * b + (a - b);
  }

  /** Every score lies between 0 and 1, and is positive exactly when some field shares a word with the
      message. */
  lemma ScoreInUnit(prompt: set<string>, s: Session)
    ensures 0.0 <= Score(prompt, s) <= 1.0
    ensures Score(prompt, s) > 0.0 <==> exists f :: f in s.fields && prompt * f.words != {}
  {
    BestFieldIsMaximal(prompt, s.fields);
    var b := BestField(prompt, s.fields);
    if b.overlap > 0 {
      assert prompt != {};
      QuotientInUnit(b.overlap, |prompt|);
      var i: nat :| FirstBestField(prompt, s.fields, b, i);
      assert s.fields[i] in s.fields && prompt * s.fields[i].words != {};
    } else {
      forall f | f in s.fields ensures prompt * f.words == {} {
        assert |prompt * f.words| == 0;
      }
    }
  }

  lemma QuotientInUnit(x: nat, y: nat)
    requires 0 < x <= y
    ensures 0.0 < x as real / y as real <= 1.0
  {}

  // ---------------------------------------------------------------------------------------------
  // Choosing among the open sessions
  // ---------------------------------------------------------------------------------------------

  datatype Confidence = Low | Medium | High

  /** A session with its score and its place among the open sessions. */
  datatype Scored = Scored(score: real, index: nat, session: Session)

  datatype Outcome = Outcome(matched: Option<Session>, candidates: seq<Session>, confidence: Confidence)

  predicate HigherScore(a: Scored, b: Scored) { a.score >= b.score }

  function ScoredFrom(prompt: set<string>, sessions: seq<Session>): seq<Scored> {
    if sessions == [] then []
    else
      var n := |sessions| - 1;
      var score := Score(prompt, sessions[n]);
      ScoredFrom(prompt, sessions[..n]) + if score > 0.0 then [Scored(score, n, sessions[n])] else []
  }

  function Leading(scored: seq<Scored>): (r: seq<Session>)
    ensures |r| == if |scored| < MAX_CANDIDATES then |scored| else MAX_CANDIDATES
    ensures forall i :: 0 <= i < |r| ==> r[i] == scored[i].session
  {
    var n := if |scored| < MAX_CANDIDATES then |scored| else MAX_CANDIDATES;
    seq(n, i requires 0 <= i < n => scored[i].session)
  }

  /** Matches the top session when it is good enough and clear of the runner-up; otherwise only
      surfaces candidates. */
  function ChooseTop(ranked: seq<Scored>): Outcome
    requires ranked != []
  {
    var top := ranked[0].score;
    var margin := top - (if |ranked| > 1 then ranked[1].score else 0.0);
    if top >= SCORE_HIGH && margin >= AMBIGUITY_MARGIN then Outcome(Some(ranked[0].session), Leading(ranked), High)
    else if top >= SCORE_MEDIUM && margin >= AMBIGUITY_MARGIN then
      Outcome(Some(ranked[0].session), Leading(ranked), Medium)
    else Outcome(None, Leading(ranked), Low)
  }

  function MostRecent(sessions: seq<Session>): (r: Session)
    requires sessions != []
    ensures r in sessions && forall s :: s in sessions ==> s.updatedAt <= r.updatedAt
  {
    if |sessions| == 1 then sessions[0]
    else
      assert sessions == [sessions[0]] + sessions[1..];
      var r := MostRecent(sessions[1..]);
      if sessions[0].updatedAt >= r.updatedAt then sessions[0] else r
  }

  /** The first session in the given thread. */
  function ThreadAnchor(sessions: seq<Session>, threadId: Option<int>): (r: Option<Session>)
    ensures r.Some? ==> r.value in sessions && threadId.Some? && r.value.threadId == threadId
    ensures r == None ==> threadId == None || forall s :: s in sessions ==> s.threadId != threadId
  {
    if threadId == None || sessions == [] then None
    else if sessions[0].threadId == threadId then Some(sessions[0])
    else
      assert sessions == [sessions[0]] + sessions[1..];
      ThreadAnchor(sessions[1..], threadId)
  }

  function ChannelAnchor(sessions: seq<Session>, channelId: Option<int>): (r: Option<Session>)
    ensures r.Some? ==> r.value in sessions && r.value.channelId == channelId
  {
    if channelId == None || sessions == [] then None
    else if sessions[0].channelId == channelId then Some(sessions[0])
    else ChannelAnchor(sessions[1..], channelId)
  }

  /** The message: its words, whether it asks for new work, whether it points to recent work, and
      where it was written. */
  datatype Message = Message(words: set<string>, newWork: bool, recencyCue: bool, threadId: Option<int>,
                             channelId: Option<int>)

  function TokenMatch(sessions: seq<Session>, m: Message): Outcome {
    var scored := ScoredFrom(m.words, sessions);
    if scored == [] && m.recencyCue && sessions != [] then
      Outcome(Some(MostRecent(sessions)), [MostRecent(sessions)], Medium)
    else if scored == [] then Outcome(None, [], Low)
    else
      SameElements(scored, HigherScore);
      ChooseTop(StableSort(scored, HigherScore))
  }

  function Shortlist(sessions: seq<Session>): seq<Session> {
    if |sessions| < MAX_CANDIDATES then sessions else sessions[..MAX_CANDIDATES]
  }

  function Recalled(listed: Option<seq<Session>>, m: Message): Outcome {
    if listed == None then Outcome(None, [], Low)
    else
      var sessions := Select(listed.value, IsOpen);
      if m.newWork then
        match ThreadAnchor(sessions, m.threadId)
        case Some(s) => Outcome(None, [s], Low)
        case None =>
          match ChannelAnchor(sessions, m.channelId)
          case Some(s) => Outcome(None, [s], Low)
          case None => Outcome(None, [], Low)
      else if sessions == [] then Outcome(None, [], Low)
      else
        match ThreadAnchor(sessions, m.threadId)
        case Some(s) => Outcome(Some(s), Shortlist(sessions), High)
        case None => TokenMatch(sessions, m)
  }

  method ScoreAll(prompt: set<string>, sessions: seq<Session>) returns (scored: seq<Scored>)
    ensures scored == ScoredFrom(prompt, sessions)
  {
    scored := [];
    for i := 0 to |sessions|
      invariant scored == ScoredFrom(prompt, sessions[..i])
    {
      assert sessions[..i + 1][..i] == sessions[..i];
      var score := ScoreSession(prompt, sessions[i]);
      if score > 0.0 {
        scored := scored + [Scored(score, i, sessions[i])];
      }
    }
    assert sessions[..|sessions|] == sessions;
  }

  method ComputeSessionRecall(listed: Option<seq<Session>>, m: Message) returns (r: Outcome)
    ensures r == Recalled(listed, m)
  {
    if listed == None {
      return Outcome(None, [], Low);
    }
    var sessions := Select(listed.value, IsOpen);
    var anchor := ThreadAnchor(sessions, m.threadId);
    if m.newWork {
      if anchor == None {
        anchor := ChannelAnchor(sessions, m.channelId);
      }
      return Outcome(None, if anchor == None then [] else [anchor.value], Low);
    }
    if sessions == [] {
      return Outcome(None, [], Low);
    }
    if anchor != None {
      return Outcome(anchor, Shortlist(sessions), High);
    }
    var scored := ScoreAll(m.words, sessions);
    if scored == [] {
      if m.recencyCue {
        return Outcome(Some(MostRecent(sessions)), [MostRecent(sessions)], Medium);
      }
      return Outcome(None, [], Low);
    }
    SameElements(scored, HigherScore);
    return ChooseTop(StableSort(scored, HigherScore));
  }

  // ---------------------------------------------------------------------------------------------
  // Theorems
  // ---------------------------------------------------------------------------------------------

  /** A session good enough and clear of every other open session, including those without a match. */
  ghost predicate ClearWinner(sessions: seq<Session>, prompt: set<string>, i: nat) {
    && i < |sessions|
    && Score(prompt, sessions[i]) >= SCORE_MEDIUM
    && forall j :: 0 <= j < |sessions| && j != i ==>
         Score(prompt, sessions[i]) - Score(prompt, sessions[j]) >= AMBIGUITY_MARGIN
  }

  /** What a scored entry says: a place among the open sessions, and a positive score. */
  ghost predicate ScoredAt(prompt: set<string>, sessions: seq<Session>, x: Scored) {
    && x.index < |sessions| && x.session == sessions[x.index]
    && x.score == Score(prompt, x.session) && x.score > 0.0
  }

  lemma {:induction false} ScoredAre(prompt: set<string>, sessions: seq<Session>, x: Scored)
    ensures x in ScoredFrom(prompt, sessions) <==> ScoredAt(prompt, sessions, x)
  {
    if sessions != [] {
      var n := |sessions| - 1;
      ScoredAre(prompt, sessions[..n], x);
      assert x.index < n ==> sessions[..n][x.index] == sessions[x.index];
    }
  }

  predicate PlacesDiffer(a: Scored, b: Scored) { a.index != b.index }

  lemma {:induction false} ScoredOnce(prompt: set<string>, sessions: seq<Session>)
    ensures Pairwise(ScoredFrom(prompt, sessions), PlacesDiffer)
  {
    if sessions != [] {
      var n := |sessions| - 1;
      var before := ScoredFrom(prompt, sessions[..n]);
      var last := Scored(Score(prompt, sessions[n]), n, sessions[n]);
      ScoredOnce(prompt, sessions[..n]);
      forall x | x in before ensures PlacesDiffer(x, last) { ScoredAre(prompt, sessions[..n], x); }
      PairwiseAppend(before, [last], PlacesDiffer);
    }
  }

  /** The ranking: highest score first, each scored session once. */
  lemma RankedAre(prompt: set<string>, sessions: seq<Session>)
    ensures var ranked := StableSort(ScoredFrom(prompt, sessions), HigherScore);
      && |ranked| == |ScoredFrom(prompt, sessions)|
      && (forall x :: x in ranked <==> ScoredAt(prompt, sessions, x))
      && SortedBy(ranked, HigherScore) && Pairwise(ranked, PlacesDiffer)
  {
    var scored := ScoredFrom(prompt, sessions);
    forall x ensures x in scored <==> ScoredAt(prompt, sessions, x) { ScoredAre(prompt, sessions, x); }
    ScoredOnce(prompt, sessions);
    SameElements(scored, HigherScore);
    assert Preorder(HigherScore);
    StableSortSorts(scored, HigherScore);
    StableSortKeepsPairwise(scored, HigherScore, PlacesDiffer);
  }

  /** When scoring matches, the session it matches is a clear winner. */
  lemma MatchIsClearWinner(sessions: seq<Session>, prompt: set<string>) returns (i: nat)
    requires RankedNonEmpty(prompt, sessions)
    requires ChooseTop(StableSort(ScoredFrom(prompt, sessions), HigherScore)).matched.Some?
    ensures ClearWinner(sessions, prompt, i)
    ensures ChooseTop(StableSort(ScoredFrom(prompt, sessions), HigherScore)).matched == Some(sessions[i])
  {
    RankedAre(prompt, sessions);
    var ranked := StableSort(ScoredFrom(prompt, sessions), HigherScore);
    var top := ranked[0];
    assert top in ranked;
    i := top.index;
    forall j | 0 <= j < |sessions| && j != i
      ensures top.score - Score(prompt, sessions[j]) >= AMBIGUITY_MARGIN
    {
      ScoreInUnit(prompt, sessions[j]);
      var x := Scored(Score(prompt, sessions[j]), j, sessions[j]);
      if x.score > 0.0 {
        assert x in ranked;
        var k :| 0 <= k < |ranked| && ranked[k] == x;
        if k > 1 { assert HigherScore(ranked[1], ranked[k]); }
      } else if |ranked| > 1 {
        assert ranked[1] in ranked;
      }
    }
  }

  ghost predicate RankedNonEmpty(prompt: set<string>, sessions: seq<Session>) {
    StableSort(ScoredFrom(prompt, sessions), HigherScore) != []
  }

  /** A clear winner is matched, with high confidence from 0.45 on. */
  lemma ClearWinnerIsMatched(sessions: seq<Session>, prompt: set<string>, i: nat)
    requires ClearWinner(sessions, prompt, i)
    ensures RankedNonEmpty(prompt, sessions)
    ensures var r := ChooseTop(StableSort(ScoredFrom(prompt, sessions), HigherScore));
      && r.matched == Some(sessions[i])
      && r.confidence == if Score(prompt, sessions[i]) >= SCORE_HIGH then High else Medium
  {
    RankedAre(prompt, sessions);
    var ranked := StableSort(ScoredFrom(prompt, sessions), HigherScore);
    var x := Scored(Score(prompt, sessions[i]), i, sessions[i]);
    assert x in ranked;
    var k :| 0 <= k < |ranked| && ranked[k] == x;
    assert ranked[0] in ranked;
    assert k == 0 || HigherScore(ranked[0], ranked[k]);
    assert ranked[0] == x;
    if |ranked| > 1 {
      assert ranked[1] in ranked && PlacesDiffer(ranked[0], ranked[1]);
    }
  }

  /** Whatever the sessions and the message: when the sessions are scored, one is attached exactly when
      it is a clear winner among all open sessions; with no shared word at all, only a recency cue
      attaches one. */
  lemma ScoringAttachesIff(sessions: seq<Session>, m: Message)
    ensures ScoredFrom(m.words, sessions) != [] ==>
      (TokenMatch(sessions, m).matched.Some? <==> exists i: nat :: ClearWinner(sessions, m.words, i))
    ensures forall i: nat :: ClearWinner(sessions, m.words, i) ==> TokenMatch(sessions, m).matched == Some(sessions[i])
    ensures TokenMatch(sessions, m).matched.Some? ==>
      (exists i: nat :: ClearWinner(sessions, m.words, i)) || (ScoredFrom(m.words, sessions) == [] && m.recencyCue)
  {
    RankedAre(m.words, sessions);
    forall i: nat | ClearWinner(sessions, m.words, i) ensures TokenMatch(sessions, m).matched == Some(sessions[i]) {
      ClearWinnerIsMatched(sessions, m.words, i);
    }
    if ScoredFrom(m.words, sessions) != [] && TokenMatch(sessions, m).matched.Some? {
      var i := MatchIsClearWinner(sessions, m.words);
    }
  }

  lemma TokenMatchIsListed(sessions: seq<Session>, m: Message)
    ensures var r := TokenMatch(sessions, m).matched; r.Some? ==> r.value in sessions
  {
    RankedAre(m.words, sessions);
    var ranked := StableSort(ScoredFrom(m.words, sessions), HigherScore);
    if ranked != [] { assert ScoredAt(m.words, sessions, ranked[0]); }
  }

  /** Recall only ever attaches an open session that was listed, and none for new work. */
  lemma AttachesOnlyOpen(listed: Option<seq<Session>>, m: Message)
    ensures var r := Recalled(listed, m);
      r.matched.Some? ==> listed.Some? && r.matched.value in listed.value && IsOpen(r.matched.value) && !m.newWork
  {
    if listed.Some? { TokenMatchIsListed(Select(listed.value, IsOpen), m); }
  }

  /** No session shares a word with the message. */
  ghost predicate ShareNoWord(sessions: seq<Session>, words: set<string>) {
    forall s, f :: s in sessions && f in s.fields ==> words * f.words == {}
  }

  lemma NoneScoredIff(sessions: seq<Session>, words: set<string>)
    ensures ScoredFrom(words, sessions) == [] <==> ShareNoWord(sessions, words)
  {
    if ScoredFrom(words, sessions) == [] {
      forall s, f | s in sessions && f in s.fields ensures words * f.words == {} {
        var i :| 0 <= i < |sessions| && sessions[i] == s;
        ScoredAre(words, sessions, Scored(Score(words, s), i, s));
        ScoreInUnit(words, s);
      }
    } else {
      var x := ScoredFrom(words, sessions)[0];
      ScoredAre(words, sessions, x);
      ScoreInUnit(words, x.session);
    }
  }

  /** The listed sessions that are open. */
  function OpenSessions(listed: Option<seq<Session>>): seq<Session> {
    if listed == None then [] else Select(listed.value, IsOpen)
  }

  ghost predicate InThread(sessions: seq<Session>, threadId: Option<int>) {
    threadId.Some? && exists s :: s in sessions && s.threadId == threadId
  }

  /** Recall attaches a session exactly when the message is no new work, some session is open, and one of
      them is in the message's thread, or is a clear winner, or none shares a word with a message that
      points to recent work. */
  lemma RecallAttachesIff(listed: Option<seq<Session>>, m: Message)
    ensures var sessions := OpenSessions(listed);
      Recalled(listed, m).matched.Some? <==>
        && !m.newWork && sessions != []
        && (|| InThread(sessions, m.threadId)
            || (exists i: nat :: ClearWinner(sessions, m.words, i))
            || (ShareNoWord(sessions, m.words) && m.recencyCue))
  {
    var sessions := OpenSessions(listed);
    NoneScoredIff(sessions, m.words);
    ScoringAttachesIff(sessions, m);
  }
}
