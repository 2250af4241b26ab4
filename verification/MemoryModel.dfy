/** Memory shards, inverted sort keys and word splitting
    (packages/agent-memory/src/yule_agent_memory/__init__.py and `_invert` of long_term_memory.py). */
module MemoryModel {
  import opened Text
  import opened Wrappers

  datatype Kind = ObsidianNote | SessionExtra | Mistake | Decision | Audit

  /** `created` is the parsed `createdAt`, if it parses; `blocker` is empty when there is none. */
  datatype Shard = Shard(kind: Kind, source: string, content: string, createdAt: Key, created: Option<int>,
                         topicTags: seq<string>, hash: Key, blocker: string)

  function UpperChar(c: char): char {
    if 'a' <= c <= 'z' then c - 'a' + 'A' else c
  }

  predicate SaysBlock(s: string) {
    |s| == 5 && UpperChar(s[0]) == 'B' && UpperChar(s[1]) == 'L' && UpperChar(s[2]) == 'O'
    && UpperChar(s[3]) == 'C' && UpperChar(s[4]) == 'K'
  }

  /** A mistake that blocks. */
  predicate IsBlock(s: Shard) { s.kind == Mistake && SaysBlock(s.blocker) }

  // ---------------------------------------------------------------------------------------------
  // Words
  // ---------------------------------------------------------------------------------------------

  predicate IsWordChar(c: char) { 'a' <= c <= 'z' || '0' <= c <= '9' }

  /** How many word characters `s` starts with. */
  function RunLength(s: string): (n: nat)
    ensures n <= |s|
  {
    if s == "" || !IsWordChar(s[0]) then 0 else 1 + RunLength(s[1..])
  }

  /** The maximal runs of word characters, in order. */
  function Words(s: string): seq<string>
    decreases |s|
  {
    if s == "" then []
    else if IsWordChar(s[0]) then [s[..RunLength(s)]] + Words(s[RunLength(s)..])
    else Words(s[1..])
  }

  function Tokenize(s: string): set<string> {
    set w | w in Words(Lower(Strip(s)))
  }

  // ---------------------------------------------------------------------------------------------
  // Inverted strings
  // ---------------------------------------------------------------------------------------------

  function Complement(s: Key): (r: Key)
    ensures |r| == |s| && forall i :: 0 <= i < |s| ==> r[i] == MAX_CODE_POINT - s[i]
  {
    seq(|s|, i requires 0 <= i < |s| => MAX_CODE_POINT - s[i])
  }

  /** The sort key meant to put later timestamps first. */
  function Invert(s: Key): Key {
    if s == [] then [0xFFFF] else Complement(s)
  }

  lemma LexLessCons(x: CodePoint, s: Key, y: CodePoint, t: Key)
    ensures LexLess([x] + s, [y] + t) <==> x < y || (x == y && LexLess(s, t))
  {
    var a, b := [x] + s, [y] + t;
    assert a[1..] == s && b[1..] == t;
    assert LexLe(a, b) <==> x < y || (x == y && LexLe(s, t));
    assert a == b <==> x == y && s == t;
  }

  lemma PrefixCons(x: CodePoint, s: Key, y: CodePoint, t: Key)
    ensures [x] + s <= [y] + t <==> x == y && s <= t
  {
    var a, b := [x] + s, [y] + t;
    assert a[1..] == s && b[1..] == t;
    if a <= b { assert a[0] == b[0] && a[1..] <= b[1..]; }
  }

  lemma {:induction false} ComplementLess(a: Key, b: Key)
    ensures LexLess(Complement(a), Complement(b)) <==> if a <= b || b <= a then |a| < |b| else LexLess(b, a)
  {
    if a == [] || b == [] {
      assert Complement([]) == [];
    } else {
      var x, s, y, t := a[0], a[1..], b[0], b[1..];
      assert a == [x] + s && b == [y] + t;
      ComplementCons(x, s);
      ComplementCons(y, t);
      LexLessCons(MAX_CODE_POINT - x, Complement(s), MAX_CODE_POINT - y, Complement(t));
      LexLessCons(y, t, x, s);
      PrefixCons(x, s, y, t);
      PrefixCons(y, t, x, s);
      ComplementLess(s, t);
    }
  }

  lemma ComplementCons(x: CodePoint, s: Key)
    ensures Complement([x] + s) == [MAX_CODE_POINT - x] + Complement(s)
  {}

  lemma {:induction false} PrefixIsLess(a: Key, b: Key)
    requires a <= b
    ensures LexLe(a, b)
  {
    if a != [] {
      assert a[1..] <= b[1..];
      PrefixIsLess(a[1..], b[1..]);
    }
  }

  /** Inverting reverses the order of two non-empty strings exactly when neither is a proper prefix of
      the other. */
  lemma InvertReversesIff(a: Key, b: Key)
    requires a != [] && b != []
    ensures (LexLess(Invert(a), Invert(b)) <==> LexLess(b, a)) && (LexLess(Invert(b), Invert(a)) <==> LexLess(a, b))
      <==> !(a < b || b < a)
  {
    ComplementLess(a, b);
    ComplementLess(b, a);
    if a <= b { PrefixIsLess(a, b); }
    if b <= a { PrefixIsLess(b, a); }
    if LexLe(a, b) && LexLe(b, a) { LexAntisymmetric(a, b); }
  }

  /** The codes of "2" and "20": inverting keeps them in the order they had. */
  lemma PrefixKeepsItsPlace()
    ensures var a: Key, b: Key := [50], [50, 48]; LexLess(a, b) && LexLess(Invert(a), Invert(b))
  {
    var a: Key, b: Key := [50], [50, 48];
    assert a < b && a[1..] == [];
    assert LexLe(a[1..], b[1..]);
    ComplementLess(a, b);
  }

  /** An empty timestamp should sort last. It sorts after another one exactly when that one starts with a
      code point above U+100000, and otherwise before it, unless the other is U+100000 alone. */
  lemma EmptyInvertsFirstIff(b: Key)
    requires b != []
    ensures LexLess(Invert(b), Invert([])) <==> b[0] > 0x100000
    ensures LexLess(Invert([]), Invert(b)) <==> b[0] < 0x100000 || (b[0] == 0x100000 && |b| > 1)
  {
    var c := Invert(b);
    var e: Key := [0xFFFF];
    assert c[0] == MAX_CODE_POINT - b[0] && e[1..] == [];
    assert |c| == 1 ==> c == [c[0]];
    assert LexLe([], c[1..]) && (LexLe(c[1..], []) <==> |b| == 1);
    assert LexLe(c, e) <==> c[0] < e[0] || (c[0] == e[0] && LexLe(c[1..], e[1..]));
  }

  /** Timestamps of one length: the later one gets the smaller key. */
  lemma InvertReversesSameLength(a: Key, b: Key)
    requires |a| == |b|
    ensures LexLess(Invert(a), Invert(b)) <==> LexLess(b, a)
  {
    if a != [] {
      ComplementLess(a, b);
      if a == b {} else { assert !(a <= b) && !(b <= a); }
    }
  }
}
