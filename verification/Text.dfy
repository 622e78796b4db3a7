/** The string operations the server relies on, with the facts later proofs need. */
module Text {

  /** The characters for which Python's `str.isspace` holds, hence the ones `str.strip` removes. */
  predicate IsSpace(c: char) {
    var n := c as int;
    0x09 <= n <= 0x0d || 0x1c <= n <= 0x20 || n == 0x85 || n == 0xa0 || n == 0x1680
    || 0x2000 <= n <= 0x200a || n == 0x2028 || n == 0x2029 || n == 0x202f || n == 0x205f || n == 0x3000
  }

  /** They are the ten ASCII ones and nineteen beyond ASCII, no-break and ideographic space among them. */
  lemma SpaceExactly(c: char)
    ensures IsSpace(c) <==>
      || c in " \t\n\r" || c as int in {0x0b, 0x0c, 0x1c, 0x1d, 0x1e, 0x1f}
      || c as int in {0x85, 0xa0, 0x1680, 0x2000, 0x2001, 0x2002, 0x2003, 0x2004, 0x2005, 0x2006, 0x2007, 0x2008,
                      0x2009, 0x200a, 0x2028, 0x2029, 0x202f, 0x205f, 0x3000}
  {
  }

  predicate AllSpace(s: string) {
    forall c | c in s :: IsSpace(c)
  }

  function StripLeft(s: string): string {
    if s != "" && IsSpace(s[0]) then StripLeft(s[1..]) else s
  }

  function StripRight(s: string): string {
    if s != "" && IsSpace(s[|s| - 1]) then StripRight(s[..|s| - 1]) else s
  }

  /** `str.strip()`. */
  function Strip(s: string): string {
    StripRight(StripLeft(s))
  }

  /** No space at either end. */
  predicate Trimmed(s: string) {
    s == "" || (!IsSpace(s[0]) && !IsSpace(s[|s| - 1]))
  }

  lemma StripLeftDropsSpaces(a: string, s: string)
    requires AllSpace(a)
    ensures StripLeft(a + s) == StripLeft(s)
  {
    if a == "" {
      assert a + s == s;
    } else {
      assert (a + s)[1..] == a[1..] + s;
      assert a[0] in a;
      StripLeftDropsSpaces(a[1..], s);
    }
  }

  lemma StripRightDropsSpaces(s: string, b: string)
    requires AllSpace(b)
    ensures StripRight(s + b) == StripRight(s)
  {
    if b == "" {
      assert s + b == s;
    } else {
      var n := |b| - 1;
      assert (s + b)[..|s + b| - 1] == s + b[..n];
      assert b[n] in b;
      StripRightDropsSpaces(s, b[..n]);
    }
  }

  /** Stripping removes exactly the padding around a trimmed core. */
  lemma StripOfPadded(a: string, core: string, b: string)
    requires AllSpace(a) && AllSpace(b) && Trimmed(core)
    ensures Strip(a + core + b) == core
  {
    assert a + core + b == a + (core + b);
    StripLeftDropsSpaces(a, core + b);
    if core == "" {
      StripLeftDropsSpaces(b, "");
      assert core + b == b == b + "";
    } else {
      assert StripLeft(core + b) == core + b;
      StripRightDropsSpaces(core, b);
    }
  }

  lemma StripLeftSplits(s: string) returns (a: string)
    ensures AllSpace(a) && s == a + StripLeft(s)
    ensures StripLeft(s) == "" || !IsSpace(StripLeft(s)[0])
  {
    if s != "" && IsSpace(s[0]) {
      var a' := StripLeftSplits(s[1..]);
      a := [s[0]] + a';
    } else {
      a := "";
    }
  }

  lemma StripRightSplits(s: string) returns (b: string)
    ensures AllSpace(b) && s == StripRight(s) + b
    ensures StripRight(s) == "" || !IsSpace(StripRight(s)[|StripRight(s)| - 1])
  {
    if s != "" && IsSpace(s[|s| - 1]) {
      var b' := StripRightSplits(s[..|s| - 1]);
      b := b' + [s[|s| - 1]];
    } else {
      b := "";
    }
  }

  /** Every string is padding, its stripped core, and padding. */
  lemma StripSplits(s: string) returns (a: string, b: string)
    ensures AllSpace(a) && AllSpace(b) && s == a + Strip(s) + b
    ensures Trimmed(Strip(s))
  {
    a := StripLeftSplits(s);
    b := StripRightSplits(StripLeft(s));
    if Strip(s) != "" {
      assert StripLeft(s)[0] == Strip(s)[0];
    }
  }

  lemma StripIdempotent(s: string)
    ensures Trimmed(Strip(s)) && Strip(Strip(s)) == Strip(s)
  {
    var _, _ := StripSplits(s);
    StripOfPadded("", Strip(s), "");
    assert "" + Strip(s) + "" == Strip(s);
  }

  /** Only a string of nothing but spaces strips to nothing. */
  lemma BlankExactly(s: string)
    ensures Strip(s) != "" <==> exists i :: 0 <= i < |s| && !IsSpace(s[i])
  {
    var a, b := StripSplits(s);
    if Strip(s) != "" {
      assert s[|a|] == Strip(s)[0];
    } else {
      assert s == a + b;
      forall i | 0 <= i < |s| ensures IsSpace(s[i]) {
        assert s[i] in a || s[i] in b;
      }
    }
  }

  function LowerChar(c: char): char {
    if 'A' <= c <= 'Z' then (c as int + 32) as char else c
  }

  /** `str.lower()` on ASCII letters. */
  function Lower(s: string): (r: string)
    ensures |r| == |s|
  {
    seq(|s|, i requires 0 <= i < |s| => LowerChar(s[i]))
  }

  predicate IsAscii(s: string) {
    forall c | c in s :: c as int < 128
  }

  lemma AsciiExactly(s: string)
    ensures IsAscii(s) <==> forall i | 0 <= i < |s| :: s[i] as int <= 0x7f
  {
    assert forall i | 0 <= i < |s| :: s[i] in s;
  }

  predicate MatchesAt(s: string, part: string, i: nat) {
    i + |part| <= |s| && s[i..i + |part|] == part
  }

  /** `part in s`. */
  predicate Contains(s: string, part: string) {
    exists i: nat | i <= |s| :: MatchesAt(s, part, i)
  }

  predicate Around(s: string, before: string, part: string, after: string) {
    s == before + part + after
  }

  /** A string contains exactly the strings it can be split around. */
  lemma ContainsExactly(s: string, part: string)
    ensures Contains(s, part) <==> exists before, after :: Around(s, before, part, after)
  {
    if Contains(s, part) {
      var i: nat :| i <= |s| && MatchesAt(s, part, i);
      assert Around(s, s[..i], part, s[i + |part|..]);
    }
    if before, after :| Around(s, before, part, after) {
      assert MatchesAt(s, part, |before|);
    }
  }

  lemma MatchFixesLetter(s: string, part: string, i: nat, j: nat)
    requires MatchesAt(s, part, i) && j < |part|
    ensures s[i + j] == part[j]
  {
    assert s[i..i + |part|][j] == s[i + j];
  }

  /** A string that lacks one of the letters of `part` does not contain `part`. */
  lemma LacksLetter(s: string, part: string, j: nat)
    requires j < |part| && part[j] !in s
    ensures !Contains(s, part)
  {
    forall i: nat | i <= |s| ensures !MatchesAt(s, part, i) {
      if MatchesAt(s, part, i) {
        MatchFixesLetter(s, part, i, j);
      }
    }
  }

  lemma ContainsItself(s: string)
    ensures Contains(s, s)
  {
    assert MatchesAt(s, s, 0);
  }

  predicate EndsWith(s: string, suffix: string) {
    |suffix| <= |s| && MatchesAt(s, suffix, |s| - |suffix|)
  }

  /** Python's ordering of strings: by code point, a proper prefix first. */
  predicate LexLess(a: string, b: string) {
    b != "" && (a == "" || a[0] < b[0] || (a[0] == b[0] && LexLess(a[1..], b[1..])))
  }

  /** `a` and `b` agree on their first `n` characters, and there `a` ends or has the lesser character. */
  predicate DiffersFirstAt(a: string, b: string, n: nat) {
    n <= |a| && n < |b| && a[..n] == b[..n] && (n == |a| || a[n] < b[n])
  }

  /** The order is decided by the first difference. */
  lemma {:induction false} LexLessExactly(a: string, b: string)
    ensures LexLess(a, b) <==> exists n: nat :: DiffersFirstAt(a, b, n)
  {
    if a == "" || b == "" || a[0] != b[0] {
      if LexLess(a, b) {
        assert DiffersFirstAt(a, b, 0);
      }
      if n: nat :| DiffersFirstAt(a, b, n) {
        assert n > 0 ==> a[..n][0] == b[..n][0];
      }
    } else {
      LexLessExactly(a[1..], b[1..]);
      if n: nat :| DiffersFirstAt(a[1..], b[1..], n) {
        assert a[..n + 1] == [a[0]] + a[1..][..n] && b[..n + 1] == [b[0]] + b[1..][..n];
        assert DiffersFirstAt(a, b, n + 1);
      }
      if n: nat :| DiffersFirstAt(a, b, n) {
        assert n > 0;
        assert a[1..][..n - 1] == a[..n][1..] && b[1..][..n - 1] == b[..n][1..];
        assert DiffersFirstAt(a[1..], b[1..], n - 1);
      }
    }
  }

  lemma LexTotal(a: string, b: string)
    ensures LexLess(a, b) || a == b || LexLess(b, a)
  {
    if a != "" && b != "" && a[0] == b[0] {
      LexTotal(a[1..], b[1..]);
      assert a == [a[0]] + a[1..] && b == [b[0]] + b[1..];
    }
  }

  lemma LexAsymmetric(a: string, b: string)
    requires LexLess(a, b)
    ensures !LexLess(b, a) && a != b
  {
    if a != "" && a[0] == b[0] {
      LexAsymmetric(a[1..], b[1..]);
    }
  }

  lemma LexTransitive(a: string, b: string, c: string)
    requires LexLess(a, b) && LexLess(b, c)
    ensures LexLess(a, c)
  {
    if a != "" && b[0] == c[0] && a[0] == b[0] {
      LexTransitive(a[1..], b[1..], c[1..]);
    }
  }
}
