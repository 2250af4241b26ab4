/** Execution blocks read from an event description, and the reminders before their ends
    (apps/planning-agent/src/yule_planning/schedule.py, lines 160-225 and 414-529).

    Times are whole wall-clock seconds; midnights are the multiples of `DAY`. */
module Checkpoints {
  import opened Sequences
  import opened Sorting
  import opened Wrappers

  const HOUR := 3600
  const DAY := 24 * HOUR
  const SLACK := 5 * 60

  datatype Meridian = Unmarked | Am | Pm

  /** A time token that matched the pattern: the optional half-of-day mark and the digits. */
  datatype Token = Token(meridian: Meridian, hour: nat, minute: nat)

  datatype Event = Event(start: int, end: int)

  // ---------------------------------------------------------------------------------------------
  // Readings of a token
  // ---------------------------------------------------------------------------------------------

  function CandidateHours(t: Token): seq<nat> {
    match t.meridian
    case Am => [if t.hour == 12 then 0 else t.hour]
    case Pm => [if t.hour == 12 then 12 else t.hour + 12]
    case Unmarked => [t.hour] + (if t.hour < 12 then [t.hour + 12] else []) + [t.hour + 24]
  }

  function Midnight(time: int): int { time / DAY * DAY }

  /** Day offset and hour of the day are split apart and put together again. */
  function At(midnight: int, hour: nat, minute: nat): (time: int)
    ensures time == midnight + hour * HOUR + minute * 60
  {
    midnight + hour / 24 * DAY + hour % 24 * HOUR + minute * 60
  }

  function Readings(t: Token, midnight: int): (r: seq<int>)
    ensures |r| == |CandidateHours(t)| && r != []
    ensures forall i :: 0 <= i < |r| ==> r[i] == midnight + CandidateHours(t)[i] * HOUR + t.minute * 60
  {
    seq(|CandidateHours(t)|, i requires 0 <= i < |CandidateHours(t)| => At(midnight, CandidateHours(t)[i], t.minute))
  }

  function Distance(a: int, b: int): nat { if a < b then b - a else a - b }

  /** Python's `min` with a key: the first element whose key is least. */
  function Nearest(s: seq<int>, target: int): (r: int)
    requires s != []
    ensures r in s && forall x :: x in s ==> Distance(r, target) <= Distance(x, target)
  {
    if |s| == 1 then s[0]
    else
      assert s == [s[0]] + s[1..];
      var r := Nearest(s[1..], target);
      if Distance(s[0], target) <= Distance(r, target) then s[0] else r
  }

  function Least(s: seq<int>): (r: int)
    requires s != []
    ensures r in s && forall x :: x in s ==> r <= x
  {
    if |s| == 1 then s[0]
    else
      assert s == [s[0]] + s[1..];
      var r := Least(s[1..]);
      if s[0] <= r then s[0] else r
  }

  predicate NearEvent(e: Event, t: int) { e.start - SLACK <= t <= e.end + SLACK }

  /** The time a token stands for. A token that did not match is no time; minutes over 59 raise. */
  function Resolve(token: Option<Token>, e: Event, reference: Option<int>): Result<Option<int>> {
    match token
    case None => Ok(None)
    case Some(t) =>
      if t.minute > 59 then Raised
      else
        var candidates := Readings(t, Midnight(e.start));
        match reference
        case None =>
          var inWindow := Select(candidates, (c: int) => NearEvent(e, c));
          Ok(Some(Nearest(if inWindow != [] then inWindow else candidates, e.start)))
        case Some(start) =>
          var after := Select(candidates, (c: int) => c > start);
          var inWindow := Select(after, (c: int) => c <= e.end + SLACK);
          if inWindow != [] then Ok(Some(Least(inWindow)))
          else if after != [] then Ok(Some(Least(after)))
          else Ok(None)
  }

  /** The hour of its half of the day, counted from midnight or noon; twelve counts as zero. */
  function HalfDayHour(hour: nat): nat { if hour == 12 then 0 else hour }

  /** The clock times a token can mean, said without the candidate list: an unmarked hour before noon is
      the times the 12-hour dial shows it within 36 hours, a later unmarked hour the time the 24-hour dial
      shows on its day and on the next, and a marked hour one time counted from midnight or from noon. */
  ghost predicate Means(t: Token, midnight: int, time: int) {
    var past := time - midnight;
    match t.meridian
    case Unmarked =>
      if t.hour < 12 then 0 <= past < 36 * HOUR && past % (12 * HOUR) == t.hour * HOUR + t.minute * 60
      else t.hour / 24 <= past / DAY <= t.hour / 24 + 1 && past % DAY == t.hour % 24 * HOUR + t.minute * 60
    case Am => past == HalfDayHour(t.hour) * HOUR + t.minute * 60
    case Pm => past == (12 + HalfDayHour(t.hour)) * HOUR + t.minute * 60
  }

  /** The readings of a token are exactly the times it can mean. */
  lemma ReadingsMean(t: Token, midnight: int, time: int)
    requires t.minute <= 59
    ensures time in Readings(t, midnight) <==> Means(t, midnight, time)
  {
    if time in Readings(t, midnight) { ReadingIsMeant(t, midnight, time); }
    if Means(t, midnight, time) { MeaningIsRead(t, midnight, time); }
  }

  lemma ReadingIsMeant(t: Token, midnight: int, time: int)
    requires t.minute <= 59 && time in Readings(t, midnight)
    ensures Means(t, midnight, time)
  {
    var hs, rs := CandidateHours(t), Readings(t, midnight);
    var i :| 0 <= i < |rs| && rs[i] == time;
    if t.meridian == Unmarked {
      if t.hour < 12 {
        assert hs[i] == t.hour + 12 * i;
        DialTurns(i, t.hour * HOUR + t.minute * 60, 12 * HOUR);
      } else {
        assert hs[i] == t.hour + 24 * i;
        DayShows(t.hour + 24 * i, t.minute);
        assert (t.hour + 24 * i) / 24 == t.hour / 24 + i && (t.hour + 24 * i) % 24 == t.hour % 24;
      }
    }
  }

  lemma DialTurns(turns: int, shown: int, period: int)
    requires 0 <= turns < 3 && 0 <= shown < period
    ensures (turns * period + shown) % period == shown
  {
    assert turns == 0 || turns == 1 || turns == 2;
  }

  /** Day and time of day of an hour count. */
  lemma DayShows(hour: nat, minute: nat)
    requires minute <= 59
    ensures (hour * HOUR + minute * 60) / DAY == hour / 24
    ensures (hour * HOUR + minute * 60) % DAY == hour % 24 * HOUR + minute * 60
  {}

  lemma MeaningIsRead(t: Token, midnight: int, time: int)
    requires t.minute <= 59 && Means(t, midnight, time)
    ensures time in Readings(t, midnight)
  {
    if t.meridian != Unmarked {
      ReadingAt(t, midnight, 0);
    } else if t.hour < 12 {
      DialMeaningIsRead(t, midnight, time);
    } else {
      DayMeaningIsRead(t, midnight, time);
    }
  }

  lemma DialMeaningIsRead(t: Token, midnight: int, time: int)
    requires t.minute <= 59 && t.meridian == Unmarked && t.hour < 12 && Means(t, midnight, time)
    ensures time in Readings(t, midnight)
  {
    var turns := (time - midnight) / (12 * HOUR);
    ReadingAt(t, midnight, turns);
    assert CandidateHours(t)[turns] == t.hour + 12 * turns;
  }

  lemma DayMeaningIsRead(t: Token, midnight: int, time: int)
    requires t.minute <= 59 && t.meridian == Unmarked && t.hour >= 12 && Means(t, midnight, time)
    ensures time in Readings(t, midnight)
  {
    var later := (time - midnight) / DAY - t.hour / 24;
    DayShows(t.hour, t.minute);
    ReadingAt(t, midnight, later);
    assert CandidateHours(t)[later] == t.hour + 24 * later;
  }

  lemma ReadingAt(t: Token, midnight: int, i: nat)
    requires i < |CandidateHours(t)|
    ensures midnight + CandidateHours(t)[i] * HOUR + t.minute * 60 in Readings(t, midnight)
  {
    assert Readings(t, midnight)[i] in Readings(t, midnight);
  }

  /** An end token resolves to the earliest of its readings after the start: preferring readings near
      the event changes nothing. It resolves to no time exactly when no reading is after the start. */
  lemma EndIsEarliest(t: Token, e: Event, start: int)
    requires t.minute <= 59
    ensures var r := Resolve(Some(t), e, Some(start));
      var rs := Readings(t, Midnight(e.start));
      && r.Ok?
      && (r.value.None? <==> forall x :: x in rs ==> x <= start)
      && (r.value.Some? ==>
            r.value.value in rs && r.value.value > start && forall x :: x in rs && x > start ==> r.value.value <= x)
  {
    var rs := Readings(t, Midnight(e.start));
    var after := Select(rs, (c: int) => c > start);
    var inWindow := Select(after, (c: int) => c <= e.end + SLACK);
    if after != [] {
      assert after[0] in after;
    }
    if inWindow != [] {
      assert inWindow[0] in inWindow;
      forall x | x in rs && x > start ensures Least(inWindow) <= x {
        assert x in after;
        if x <= e.end + SLACK { assert x in inWindow; }
      }
    } else if after != [] {
      forall x | x in rs && x > start ensures Least(after) <= x { assert x in after; }
    }
  }

  /** An unmarked end always resolves when the start lies on the event's first day. */
  lemma UnmarkedEndResolves(t: Token, e: Event, start: int)
    requires t.minute <= 59 && t.meridian == Unmarked && start < Midnight(e.start) + DAY
    ensures var r := Resolve(Some(t), e, Some(start)); r.Ok? && r.value.Some?
  {
    EndIsEarliest(t, e, start);
    var last := |CandidateHours(t)| - 1;
    ReadingAt(t, Midnight(e.start), last);
    assert CandidateHours(t)[last] == t.hour + 24;
  }

  /** A start token resolves to a reading inside the event (with five minutes of slack) whenever it
      has one, and among those to one nearest to the start of the event. */
  lemma StartIsNearest(t: Token, e: Event)
    requires t.minute <= 59
    ensures var r := Resolve(Some(t), e, None);
      var rs := Readings(t, Midnight(e.start));
      && r.Ok? && r.value.Some? && r.value.value in rs
      && (NearEvent(e, r.value.value) <==> exists x :: x in rs && NearEvent(e, x))
      && (forall x :: x in rs && (NearEvent(e, x) || !NearEvent(e, r.value.value)) ==>
            Distance(r.value.value, e.start) <= Distance(x, e.start))
  {
    var rs := Readings(t, Midnight(e.start));
    var inWindow := Select(rs, (c: int) => NearEvent(e, c));
    if inWindow != [] { assert inWindow[0] in inWindow; }
  }

  /** The day of an event starts at a multiple of 86400 seconds, no later than the event. */
  lemma MidnightIs(time: int)
    ensures Midnight(time) % 86400 == 0 && Midnight(time) <= time < Midnight(time) + 86400
  {}

  ghost predicate Increasing(s: seq<int>) {
    forall i, j :: 0 <= i < j < |s| ==> s[i] < s[j]
  }

  lemma {:induction false} SelectIncreasing(s: seq<int>, keep: int -> bool)
    requires Increasing(s)
    ensures Increasing(Select(s, keep))
  {
    if s != [] {
      var t := s[1..];
      assert forall i :: 0 <= i < |t| ==> t[i] == s[i + 1];
      SelectIncreasing(t, keep);
      var r := Select(t, keep);
      forall i | 0 <= i < |r| ensures s[0] < r[i] {
        assert r[i] in r && r[i] in t;
        var k :| 0 <= k < |t| && t[k] == r[i];
      }
    }
  }

  lemma {:induction false} NearestIsEarliest(s: seq<int>, target: int, x: int)
    requires s != [] && Increasing(s) && x in s && Distance(x, target) == Distance(Nearest(s, target), target)
    ensures Nearest(s, target) <= x
  {
    if |s| > 1 {
      var t := s[1..];
      assert s == [s[0]] + t && forall i :: 0 <= i < |t| ==> t[i] == s[i + 1];
      if x in t && Nearest(s, target) != s[0] { NearestIsEarliest(t, target, x); }
    }
  }

  /** `r` is nearer to `target` than `x` is, or as near and no later. */
  ghost predicate NoFarther(r: int, x: int, target: int) {
    var d, f := if r < target then target - r else r - target, if x < target then target - x else x - target;
    d < f || (d == f && r <= x)
  }

  /** Which of its readings a start token resolves to: of those from five minutes before the event to five
      minutes after it, or of all when there are none, the one nearest to the start of the event, and the
      earlier of two equally near. */
  lemma StartIs(t: Token, e: Event) returns (time: int)
    requires t.minute <= 59
    ensures Resolve(Some(t), e, None) == Ok(Some(time)) && time in Readings(t, Midnight(e.start))
    ensures var rs := Readings(t, Midnight(e.start));
      if exists x :: x in rs && e.start - 300 <= x <= e.end + 300
      then e.start - 300 <= time <= e.end + 300
        && forall x :: x in rs && e.start - 300 <= x <= e.end + 300 ==> NoFarther(time, x, e.start)
      else forall x :: x in rs ==> NoFarther(time, x, e.start)
  {
    var rs := Readings(t, Midnight(e.start));
    var inWindow := Select(rs, (c: int) => NearEvent(e, c));
    var pool := if inWindow != [] then inWindow else rs;
    SelectIncreasing(rs, (c: int) => NearEvent(e, c));
    time := Nearest(pool, e.start);
    forall x | x in pool ensures NoFarther(time, x, e.start) {
      if Distance(x, e.start) == Distance(time, e.start) { NearestIsEarliest(pool, e.start, x); }
    }
    assert forall x :: x in inWindow <==> x in rs && e.start - 300 <= x <= e.end + 300;
    if inWindow != [] { assert inWindow[0] in inWindow; }
  }

  // ---------------------------------------------------------------------------------------------
  // Description lines
  // ---------------------------------------------------------------------------------------------

  /** A line that matched the block pattern; a side that is not a time token is `None`. */
  datatype Line = Line(start: Option<Token>, end: Option<Token>, title: string)

  datatype ExecutionBlock = ExecutionBlock(start: int, end: int, title: string)

  /** The block of a line whose start is resolved. */
  function BlockFrom(start: int, line: Line, e: Event): Result<seq<ExecutionBlock>> {
    match Resolve(line.end, e, Some(start))
    case Raised => Raised
    case Ok(None) => Ok([])
    case Ok(Some(end)) => Ok(if end <= start then [] else [ExecutionBlock(start, end, line.title)])
  }

  function ParseLine(line: Option<Line>, e: Event): Result<seq<ExecutionBlock>> {
    if line == None then Ok([])
    else
      match Resolve(line.value.start, e, None)
      case Raised => Raised
      case Ok(None) => Ok([])
      case Ok(Some(start)) => BlockFrom(start, line.value, e)
  }

  function Behind(done: seq<ExecutionBlock>, r: Result<seq<ExecutionBlock>>): Result<seq<ExecutionBlock>> {
    if r == Raised then Raised else Ok(done + r.value)
  }

  function ParseLines(lines: seq<Option<Line>>, e: Event): Result<seq<ExecutionBlock>> {
    if lines == [] then Ok([])
    else
      match ParseLine(lines[0], e)
      case Raised => Raised
      case Ok(first) => Behind(first, ParseLines(lines[1..], e))
  }

  predicate BlockStartsBefore(a: ExecutionBlock, b: ExecutionBlock) { a.start <= b.start }

  lemma BehindBehind(done: seq<ExecutionBlock>, first: seq<ExecutionBlock>, r: Result<seq<ExecutionBlock>>)
    ensures Behind(done, Behind(first, r)) == Behind(done + first, r)
  {
    if r != Raised { assert done + (first + r.value) == (done + first) + r.value; }
  }

  lemma ParseStep(done: seq<ExecutionBlock>, lines: seq<Option<Line>>, e: Event)
    requires lines != []
    ensures Behind(done, ParseLines(lines, e)) == match ParseLine(lines[0], e)
                                                 case Raised => Raised
                                                 case Ok(first) => Behind(done + first, ParseLines(lines[1..], e))
  {
    var r := ParseLine(lines[0], e);
    if r.Ok? { BehindBehind(done, r.value, ParseLines(lines[1..], e)); }
  }

  method ParseExecutionBlocks(lines: seq<Option<Line>>, e: Event) returns (r: Result<seq<ExecutionBlock>>)
    ensures r == match ParseLines(lines, e)
                 case Raised => Raised
                 case Ok(blocks) => Ok(StableSort(blocks, BlockStartsBefore))
    ensures r.Ok? ==> forall i, j :: 0 <= i < j < |r.value| ==> r.value[i].start <= r.value[j].start
  {
    var blocks: seq<ExecutionBlock> := [];
    assert lines[0..] == lines;
    assert ParseLines(lines, e).Ok? ==> [] + ParseLines(lines, e).value == ParseLines(lines, e).value;
    for i := 0 to |lines|
      invariant Behind(blocks, ParseLines(lines[i..], e)) == ParseLines(lines, e)
    {
      ParseStep(blocks, lines[i..], e);
      assert lines[i..][1..] == lines[i + 1..];
      assert blocks + [] == blocks;
      if lines[i] == None {
        continue;
      }
      var line := lines[i].value;
      var start := Resolve(line.start, e, None);
      if start == Raised {
        return Raised;
      }
      if start.value == None {
        continue;
      }
      var end := Resolve(line.end, e, start.value);
      if end == Raised {
        return Raised;
      }
      if end.value == None || end.value.value <= start.value.value {
        continue;
      }
      blocks := blocks + [ExecutionBlock(start.value.value, end.value.value, line.title)];
    }
    SortedByStart(blocks);
    return Ok(StableSort(blocks, BlockStartsBefore));
  }

  /** Sorting puts the blocks in order of their starts. */
  lemma SortedByStart(blocks: seq<ExecutionBlock>)
    ensures var r := StableSort(blocks, BlockStartsBefore);
      multiset(r) == multiset(blocks) && forall i, j :: 0 <= i < j < |r| ==> r[i].start <= r[j].start
  {
    assert Preorder(BlockStartsBefore);
    StableSortSorts(blocks, BlockStartsBefore);
    StableSortPermutes(blocks, BlockStartsBefore);
    var r := StableSort(blocks, BlockStartsBefore);
    forall i, j | 0 <= i < j < |r| ensures r[i].start <= r[j].start { assert BlockStartsBefore(r[i], r[j]); }
  }

  /** The earliest reading of a token after a time. */
  ghost predicate FirstAfter(t: Token, midnight: int, start: int, end: int) {
    end in Readings(t, midnight) && end > start && forall x :: x in Readings(t, midnight) && x > start ==> end <= x
  }

  /** A block is what some line of the description says: the line's start token resolved near the
      event, its end the earliest reading of the end token after that start. */
  ghost predicate SaidBy(b: ExecutionBlock, line: Line, e: Event) {
    && line.start.Some? && line.end.Some? && b.title == line.title
    && Resolve(line.start, e, None) == Ok(Some(b.start))
    && FirstAfter(line.end.value, Midnight(e.start), b.start, b.end)
  }

  lemma EndIsFirstAfter(t: Token, e: Event, start: int)
    requires t.minute <= 59
    ensures var r := Resolve(Some(t), e, Some(start));
      r.Ok? && forall end :: r.value == Some(end) <==> FirstAfter(t, Midnight(e.start), start, end)
  {
    EndIsEarliest(t, e, start);
  }

  lemma BlockFromSays(start: int, line: Line, e: Event, b: ExecutionBlock)
    requires BlockFrom(start, line, e).Ok?
    ensures b in BlockFrom(start, line, e).value <==>
      && line.end.Some? && b.title == line.title && b.start == start
      && FirstAfter(line.end.value, Midnight(e.start), start, b.end)
  {
    if line.end.Some? { EndIsFirstAfter(line.end.value, e, start); }
  }

  lemma LineSays(line: Line, e: Event, b: ExecutionBlock)
    requires ParseLine(Some(line), e).Ok?
    ensures b in ParseLine(Some(line), e).value <==> SaidBy(b, line, e)
  {
    if line.start.Some? {
      StartIsNearest(line.start.value, e);
      BlockFromSays(Resolve(line.start, e, None).value.value, line, e, b);
    }
  }

  /** The parsed blocks are exactly the blocks some line says. */
  lemma {:induction false} BlocksAreSaid(lines: seq<Option<Line>>, e: Event, b: ExecutionBlock)
    requires ParseLines(lines, e).Ok?
    ensures b in ParseLines(lines, e).value <==> exists line :: Some(line) in lines && SaidBy(b, line, e)
  {
    if lines != [] {
      assert lines == [lines[0]] + lines[1..];
      BlocksAreSaid(lines[1..], e, b);
      if lines[0].Some? { LineSays(lines[0].value, e, b); }
    }
  }

  /** A line with a time that no clock shows: minutes over 59 at its start, or at its end when its start
      is a time. */
  predicate BadMinutes(line: Line) {
    line.start.Some? && (line.start.value.minute > 59 || (line.end.Some? && line.end.value.minute > 59))
  }

  /** Parsing raises exactly when some line has such a time. */
  lemma {:induction false} ParsingRaisesIff(lines: seq<Option<Line>>, e: Event)
    ensures ParseLines(lines, e) == Raised <==> exists line :: Some(line) in lines && BadMinutes(line)
  {
    if lines != [] {
      assert lines == [lines[0]] + lines[1..];
      ParsingRaisesIff(lines[1..], e);
      if lines[0].Some? { LineRaisesIff(lines[0].value, e); }
    }
  }

  lemma LineRaisesIff(line: Line, e: Event)
    ensures ParseLine(Some(line), e) == Raised <==> BadMinutes(line)
  {
    if line.start.Some? && line.start.value.minute <= 59 {
      StartIsNearest(line.start.value, e);
    }
  }

  /** Every parsed block ends after it starts, at the earliest reading of its end token; a line is
      dropped only when a side is not a time or no reading of its end is after its start. */
  lemma LineGivesBlockIff(line: Line, e: Event)
    requires ParseLine(Some(line), e).Ok?
    ensures var bs := ParseLine(Some(line), e).value;
      && |bs| <= 1
      && (bs == [] <==>
            || line.start.None? || line.end.None?
            || forall x :: x in Readings(line.end.value, Midnight(e.start)) ==>
                 x <= Resolve(line.start, e, None).value.value)
  {
    if line.start.Some? && line.end.Some? {
      StartIsNearest(line.start.value, e);
      EndIsEarliest(line.end.value, e, Resolve(line.start, e, None).value.value);
    }
  }

  // ---------------------------------------------------------------------------------------------
  // Reminder leads
  // ---------------------------------------------------------------------------------------------

  /** A raw lead: an integer, or something `int` rejects. */
  datatype RawLead = Minutes(value: int) | Junk

  predicate AtMost(a: int, b: int) { b <= a }

  /** Positive leads, each once, longest first; one bad entry raises. */
  method NormalizeLeads(raw: seq<RawLead>) returns (r: Result<seq<int>>)
    ensures r == Raised <==> Junk in raw
    ensures r.Ok? ==> forall m :: m in r.value <==> m > 0 && Minutes(m) in raw
    ensures r.Ok? ==> forall i, j :: 0 <= i < j < |r.value| ==> r.value[i] > r.value[j]
  {
    var normalized: seq<int> := [];
    for i := 0 to |raw|
      invariant Junk !in raw[..i]
      invariant forall m :: m in normalized <==> m > 0 && Minutes(m) in raw[..i]
      invariant NoDuplicates(normalized)
    {
      if raw[i] == Junk {
        return Raised;
      }
      var value := raw[i].value;
      assert raw[..i + 1] == raw[..i] + [raw[i]];
      if value > 0 && value !in normalized {
        normalized := normalized + [value];
      }
    }
    assert raw[..|raw|] == raw;
    SameElements(normalized, AtMost);
    StableSortNoDuplicates(normalized, AtMost);
    StableSortSorts(normalized, AtMost);
    return Ok(StableSort(normalized, AtMost));
  }

  // ---------------------------------------------------------------------------------------------
  // Checkpoints
  // ---------------------------------------------------------------------------------------------

  /** A reminder `lead` minutes before the end of the block at position `index` of the sorted list. */
  datatype Checkpoint = Checkpoint(index: nat, block: ExecutionBlock, lead: int, remindAt: int)

  predicate RemindsBefore(a: Checkpoint, b: Checkpoint) { a.remindAt <= b.remindAt }

  function Remind(index: nat, block: ExecutionBlock, lead: int): Checkpoint {
    Checkpoint(index, block, lead, block.end - 60 * lead)
  }

  /** All reminders of one block, longest lead first. */
  function BlockCheckpoints(index: nat, block: ExecutionBlock, leads: seq<int>): seq<Checkpoint> {
    if leads == [] then []
    else
      (if Remind(index, block, leads[0]).remindAt <= block.start then [] else [Remind(index, block, leads[0])])
      + BlockCheckpoints(index, block, leads[1..])
  }

  function AllCheckpoints(blocks: seq<ExecutionBlock>, index: nat, leads: seq<int>): seq<Checkpoint>
    decreases |blocks| - index
  {
    if index >= |blocks| then []
    else BlockCheckpoints(index, blocks[index], leads) + AllCheckpoints(blocks, index + 1, leads)
  }

  lemma BlockStep(done: seq<Checkpoint>, index: nat, block: ExecutionBlock, leads: seq<int>)
    requires leads != []
    ensures done + BlockCheckpoints(index, block, leads)
      == done
         + (if Remind(index, block, leads[0]).remindAt <= block.start then [] else [Remind(index, block, leads[0])])
         + BlockCheckpoints(index, block, leads[1..])
  {
    var first, rest := Remind(index, block, leads[0]), BlockCheckpoints(index, block, leads[1..]);
    ConcatAssociates(done, if first.remindAt <= block.start then [] else [first], rest);
  }

  method CollectForBlock(done: seq<Checkpoint>, index: nat, block: ExecutionBlock, leads: seq<int>)
    returns (checkpoints: seq<Checkpoint>)
    ensures checkpoints == done + BlockCheckpoints(index, block, leads)
  {
    checkpoints := done;
    assert leads[0..] == leads;
    for j := 0 to |leads|
      invariant checkpoints + BlockCheckpoints(index, block, leads[j..]) == done + BlockCheckpoints(index, block, leads)
    {
      BlockStep(checkpoints, index, block, leads[j..]);
      assert leads[j..][1..] == leads[j + 1..];
      var remindAt := block.end - 60 * leads[j];
      if remindAt <= block.start {
        continue;
      }
      checkpoints := checkpoints + [Checkpoint(index, block, leads[j], remindAt)];
    }
  }

  method CollectCheckpoints(sorted: seq<ExecutionBlock>, leads: seq<int>) returns (checkpoints: seq<Checkpoint>)
    ensures checkpoints == AllCheckpoints(sorted, 0, leads)
  {
    checkpoints := [];
    for i := 0 to |sorted|
      invariant checkpoints + AllCheckpoints(sorted, i, leads) == AllCheckpoints(sorted, 0, leads)
    {
      AllStep(checkpoints, sorted, i, leads);
      checkpoints := CollectForBlock(checkpoints, i, sorted[i], leads);
    }
  }

  lemma AllStep(done: seq<Checkpoint>, blocks: seq<ExecutionBlock>, index: nat, leads: seq<int>)
    requires index < |blocks|
    ensures done + AllCheckpoints(blocks, index, leads)
      == (done + BlockCheckpoints(index, blocks[index], leads)) + AllCheckpoints(blocks, index + 1, leads)
  {}

  method BuildCheckpoints(blocks: seq<ExecutionBlock>, raw: seq<RawLead>)
    returns (r: Result<seq<Checkpoint>>)
    ensures r == Raised <==> Junk in raw
    ensures r.Ok? ==> Complete(StableSort(blocks, BlockStartsBefore), raw, r.value)
    ensures r.Ok? ==> InReminderOrder(r.value)
  {
    var leads := NormalizeLeads(raw);
    if leads == Raised {
      return Raised;
    }
    if leads.value == [] {
      return Ok([]);
    }
    var sorted := StableSort(blocks, BlockStartsBefore);
    var checkpoints := CollectCheckpoints(sorted, leads.value);
    CheckpointsComplete(sorted, raw, leads.value);
    CheckpointsInOrder(sorted, leads.value);
    return Ok(StableSort(checkpoints, RemindsBefore));
  }

  /** Each comes earlier in time than the next, or at the same time and for an earlier block. */
  ghost predicate InReminderOrder(cs: seq<Checkpoint>) {
    forall i, j :: 0 <= i < j < |cs| ==>
      cs[i].remindAt < cs[j].remindAt || (cs[i].remindAt == cs[j].remindAt && cs[i].index < cs[j].index)
  }

  predicate ListedBefore(a: Checkpoint, b: Checkpoint) { a.index <= b.index }

  lemma {:induction false} AllListedInOrder(blocks: seq<ExecutionBlock>, index: nat, leads: seq<int>)
    requires NoDuplicates(leads)
    ensures SortedBy(AllCheckpoints(blocks, index, leads), ListedBefore)
    decreases |blocks| - index
  {
    if index < |blocks| {
      var first, rest := BlockCheckpoints(index, blocks[index], leads), AllCheckpoints(blocks, index + 1, leads);
      BlockCheckpointsAre(index, blocks[index], leads);
      AllCheckpointsAre(blocks, index + 1, leads);
      AllListedInOrder(blocks, index + 1, leads);
      PairwiseAppend(first, rest, ListedBefore) by {
        forall i, j | 0 <= i < j < |first| ensures ListedBefore(first[i], first[j]) {
          assert first[i] in first && first[j] in first;
        }
        forall i, j | 0 <= i < j < |rest| ensures ListedBefore(rest[i], rest[j]) {}
      }
      var all := first + rest;
      forall i, j | 0 <= i < j < |all| ensures ListedBefore(all[i], all[j]) {}
    }
  }

  lemma CheckpointsInOrder(sorted: seq<ExecutionBlock>, leads: seq<int>)
    requires NoDuplicates(leads)
    ensures InReminderOrder(StableSort(AllCheckpoints(sorted, 0, leads), RemindsBefore))
  {
    var all := AllCheckpoints(sorted, 0, leads);
    var cs := StableSort(all, RemindsBefore);
    AllCheckpointsAre(sorted, 0, leads);
    AllListedInOrder(sorted, 0, leads);
    assert Preorder(RemindsBefore);
    StableSortRefines(all, RemindsBefore, ListedBefore);
    SameElements(all, RemindsBefore);
    StableSortNoDuplicates(all, RemindsBefore);
    forall i, j | 0 <= i < j < |cs|
      ensures cs[i].remindAt < cs[j].remindAt || (cs[i].remindAt == cs[j].remindAt && cs[i].index < cs[j].index)
    {
      assert Refined(RemindsBefore, ListedBefore, cs[i], cs[j]);
      assert cs[i] in cs && cs[j] in cs && cs[i] != cs[j];
    }
  }

  /** One reminder for each (block, lead) pair with a positive lead shorter than the block, strictly
      inside the block; nothing else, nothing twice; in time order. */
  ghost predicate Complete(sorted: seq<ExecutionBlock>, raw: seq<RawLead>, cs: seq<Checkpoint>) {
    && (forall c :: c in cs <==>
          && c.index < |sorted| && c.block == sorted[c.index]
          && c.lead > 0 && Minutes(c.lead) in raw && 60 * c.lead < c.block.end - c.block.start
          && c.remindAt == c.block.end - 60 * c.lead)
    && (forall c :: c in cs ==> c.block.start < c.remindAt < c.block.end)
    && NoDuplicates(cs)
    && SortedBy(cs, RemindsBefore)
  }

  lemma {:induction false} BlockCheckpointsAre(index: nat, block: ExecutionBlock, leads: seq<int>)
    requires NoDuplicates(leads)
    ensures var cs := BlockCheckpoints(index, block, leads);
      && (forall c :: c in cs <==> c == Remind(index, block, c.lead) && c.lead in leads && c.remindAt > block.start)
      && NoDuplicates(cs)
  {
    if leads != [] {
      assert leads == [leads[0]] + leads[1..];
      BlockCheckpointsAre(index, block, leads[1..]);
      var rest := BlockCheckpoints(index, block, leads[1..]);
      assert Remind(index, block, leads[0]) !in rest;
    }
  }

  lemma {:induction false} AllCheckpointsAre(blocks: seq<ExecutionBlock>, index: nat, leads: seq<int>)
    requires NoDuplicates(leads)
    ensures var cs := AllCheckpoints(blocks, index, leads);
      && (forall c :: c in cs <==>
            && index <= c.index < |blocks| && c == Remind(c.index, blocks[c.index], c.lead)
            && c.lead in leads && c.remindAt > c.block.start)
      && NoDuplicates(cs)
    decreases |blocks| - index
  {
    if index < |blocks| {
      BlockCheckpointsAre(index, blocks[index], leads);
      AllCheckpointsAre(blocks, index + 1, leads);
      var first, rest := BlockCheckpoints(index, blocks[index], leads), AllCheckpoints(blocks, index + 1, leads);
      NoDuplicatesAppend(first, rest);
    }
  }

  lemma CheckpointsComplete(sorted: seq<ExecutionBlock>, raw: seq<RawLead>, leads: seq<int>)
    requires forall m :: m in leads <==> m > 0 && Minutes(m) in raw
    requires forall i, j :: 0 <= i < j < |leads| ==> leads[i] > leads[j]
    ensures Complete(sorted, raw, StableSort(AllCheckpoints(sorted, 0, leads), RemindsBefore))
  {
    var cs := AllCheckpoints(sorted, 0, leads);
    AllCheckpointsAre(sorted, 0, leads);
    SameElements(cs, RemindsBefore);
    StableSortNoDuplicates(cs, RemindsBefore);
    assert Preorder(RemindsBefore);
    StableSortSorts(cs, RemindsBefore);
  }
}
