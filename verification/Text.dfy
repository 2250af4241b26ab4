/** The string operations the program uses, on Dafny strings. */
module Text {

  /** What Python's `str.strip` removes. */
  predicate IsSpace(c: char) {
    '\t' <= c <= '\r' || '\U{1C}' <= c <= ' ' || c == '\U{85}' || c == '\U{A0}' || c == '\U{1680}'
    || '\U{2000}' <= c <= '\U{200A}' || '\U{2028}' <= c <= '\U{2029}' || c == '\U{202F}' || c == '\U{205F}'
    || c == '\U{3000}'
  }

  function StripLeft(s: string): (r: string)
    ensures |r| <= |s|
    ensures r != "" ==> !IsSpace(r[0])
    ensures s == "" || !IsSpace(s[0]) ==> r == s
  {
    if s == "" || !IsSpace(s[0]) then s else StripLeft(s[1..])
  }

  function StripRight(s: string): (r: string)
    ensures r <= s
    ensures r != "" ==> !IsSpace(r[|r| - 1])
    ensures s == "" || !IsSpace(s[|s| - 1]) ==> r == s
  {
    if s == "" || !IsSpace(s[|s| - 1]) then s else StripRight(s[..|s| - 1])
  }

  function Strip(s: string): (r: string)
    ensures r != "" ==> !IsSpace(r[0]) && !IsSpace(r[|r| - 1])
  {
    StripRight(StripLeft(s))
  }

  /** A string that `strip` leaves alone. */
  predicate Stripped(s: string) { Strip(s) == s }

  lemma StripIsStripped(s: string)
    ensures Stripped(Strip(s))
  {}

  ghost predicate AllSpace(s: string) {
    forall i :: 0 <= i < |s| ==> IsSpace(s[i])
  }

  lemma {:induction false} StripLeftDropsSpace(s: string) returns (n: nat)
    ensures n <= |s| && s[n..] == StripLeft(s) && AllSpace(s[..n])
  {
    if s == "" || !IsSpace(s[0]) {
      n := 0;
    } else {
      var k := StripLeftDropsSpace(s[1..]);
      n := k + 1;
      assert s[n..] == s[1..][k..] && s[..n] == [s[0]] + s[1..][..k];
    }
  }

  lemma {:induction false} StripRightDropsSpace(s: string)
    ensures AllSpace(s[|StripRight(s)|..])
  {
    if s != "" && IsSpace(s[|s| - 1]) {
      var t := s[..|s| - 1];
      StripRightDropsSpace(t);
      var n := |StripRight(t)|;
      assert s[n..] == t[n..] + [s[|s| - 1]];
    }
  }

  lemma PrefixThenRest(s: string, t: string)
    requires t <= s
    ensures s == t + s[|t|..]
  {}

  /** Stripping takes space off both ends and nothing else. */
  lemma StripDropsSpace(s: string) returns (a: string, b: string)
    ensures s == a + Strip(s) + b && AllSpace(a) && AllSpace(b)
  {
    var n := StripLeftDropsSpace(s);
    var t := StripLeft(s);
    StripRightDropsSpace(t);
    PrefixThenRest(t, StripRight(t));
    a, b := s[..n], t[|StripRight(t)|..];
    assert s == a + t && a + (StripRight(t) + b) == (a + StripRight(t)) + b;
  }

  function LowerChar(c: char): char {
    if 'A' <= c <= 'Z' then c - 'A' + 'a' else c
  }

  /** Lower case of ASCII letters. */
  function Lower(s: string): (r: string)
    ensures |r| == |s| && forall i :: 0 <= i < |r| ==> r[i] == LowerChar(s[i])
  {
    seq(|s|, i requires 0 <= i < |s| => LowerChar(s[i]))
  }

  /** Python's `sub in s`. */
  predicate Contains(s: string, sub: string) {
    exists i :: 0 <= i <= |s| && OccursAt(s, sub, i)
  }

  predicate OccursAt(s: string, sub: string, i: nat) {
    i + |sub| <= |s| && s[i..i + |sub|] == sub
  }

  // ---------------------------------------------------------------------------------------------
  // Strings as code points, and their order
  // ---------------------------------------------------------------------------------------------

  const MAX_CODE_POINT := 0x10FFFF

  type CodePoint = c: int | 0 <= c <= MAX_CODE_POINT

  /** A string as its code points, for what is compared and inverted. */
  type Key = seq<CodePoint>

  function Codes(s: string): (r: Key)
    ensures |r| == |s|
  {
    seq(|s|, i requires 0 <= i < |s| => s[i] as int)
  }

  predicate LexLe(a: Key, b: Key) {
    a == [] || (b != [] && (a[0] < b[0] || (a[0] == b[0] && LexLe(a[1..], b[1..]))))
  }

  predicate LexLess(a: Key, b: Key) { LexLe(a, b) && a != b }

  /** The order of strings: a prefix first, and otherwise by the first place where they differ. */
  ghost predicate Earlier(a: Key, b: Key) {
    a <= b || exists i :: 0 <= i < |a| && i < |b| && a[..i] == b[..i] && a[i] < b[i]
  }

  lemma {:induction false} LexLeIff(a: Key, b: Key)
    ensures LexLe(a, b) <==> Earlier(a, b)
  {
    if a != [] && b != [] {
      var s, t := a[1..], b[1..];
      LexLeIff(s, t);
      if LexLe(a, b) {
        if a[0] < b[0] {
          assert a[..0] == b[..0];
        } else if s <= t {
          assert a == [a[0]] + s && b == [b[0]] + t;
        } else {
          var i :| 0 <= i < |s| && i < |t| && s[..i] == t[..i] && s[i] < t[i];
          assert a[..i + 1] == [a[0]] + s[..i] && b[..i + 1] == [b[0]] + t[..i];
          assert a[i + 1] < b[i + 1];
        }
      }
      if a <= b {
        assert a[0] == b[0] && s <= t;
      } else if Earlier(a, b) {
        var i :| 0 <= i < |a| && i < |b| && a[..i] == b[..i] && a[i] < b[i];
        if i > 0 {
          assert a[0] == a[..i][0] == b[..i][0] == b[0];
          assert s[..i - 1] == a[..i][1..] == b[..i][1..] == t[..i - 1];
          assert s[i - 1] < t[i - 1];
        }
      }
    }
  }

  lemma {:induction false} LexTotal(a: Key, b: Key)
    ensures LexLe(a, b) || LexLe(b, a)
  {
    if a != [] && b != [] { LexTotal(a[1..], b[1..]); }
  }

  lemma {:induction false} LexTransitive(a: Key, b: Key, c: Key)
    requires LexLe(a, b) && LexLe(b, c)
    ensures LexLe(a, c)
  {
    if a != [] && a[0] == b[0] == c[0] { LexTransitive(a[1..], b[1..], c[1..]); }
  }

  lemma {:induction false} LexAntisymmetric(a: Key, b: Key)
    requires LexLe(a, b) && LexLe(b, a)
    ensures a == b
  {
    if a != [] {
      LexAntisymmetric(a[1..], b[1..]);
      assert a == [a[0]] + a[1..] && b == [b[0]] + b[1..];
    }
  }
}
