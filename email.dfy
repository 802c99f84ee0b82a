/**
 * The email validator of the subscription handler: a test of the string
 * against the pattern  ^[^\s@]+@[^\s@]+\.[^\s@]+$ .
 *
 * Three readings of that pattern are given and proved to agree:
 *  - MatchesPattern: the pattern read literally, as three runs of the class
 *    [^\s@] separated by an '@' and a '.';
 *  - IsValidEmail:   what the handler computes, by splitting at the first '@';
 *  - EmailShape:     the shape of an accepted address (one '@', a local part,
 *                    a domain with an inner '.').
 */
module EmailCheck {
  import opened Wrappers

  /**
   * The characters the class \s stands for in an ECMAScript regular
   * expression: the WhiteSpace code points (tab, vertical tab, form feed,
   * space, no-break space, the byte order mark and the space separators of
   * category Zs) and the LineTerminator code points (line feed, carriage
   * return, line separator, paragraph separator).
   */
  const WhitespaceChars: set<char> := {
    '\t', '\n', '\U{000B}', '\U{000C}', '\r', ' ', '\U{00A0}', '\U{1680}',
    '\U{2000}', '\U{2001}', '\U{2002}', '\U{2003}', '\U{2004}', '\U{2005}',
    '\U{2006}', '\U{2007}', '\U{2008}', '\U{2009}', '\U{200A}',
    '\U{2028}', '\U{2029}', '\U{202F}', '\U{205F}', '\U{3000}', '\U{FEFF}'
  }

  predicate IsWhitespace(c: char) {
    c in WhitespaceChars
  }

  /** A character the class [^\s@] admits. */
  predicate InClass(c: char) {
    !IsWhitespace(c) && c != '@'
  }

  /** Every character of `t` is admitted by [^\s@]. */
  predicate AllInClass(t: string) {
    forall k :: 0 <= k < |t| ==> InClass(t[k])
  }

  predicate NoWhitespace(t: string) {
    forall k :: 0 <= k < |t| ==> !IsWhitespace(t[k])
  }

  /** Number of occurrences of `c` in `s`. */
  function CountOf(s: string, c: char): (n: nat)
    ensures n <= |s|
    ensures n == 0 <==> c !in s
  {
    if s == [] then 0
    else (if s[0] == c then 1 else 0) + CountOf(s[1..], c)
  }

  /** The position of the first `c` in `s`, if there is one. */
  function IndexOf(s: string, c: char): (r: Option<nat>)
    ensures r.Some? ==> r.value < |s| && s[r.value] == c
    ensures r.Some? ==> forall k :: 0 <= k < r.value ==> s[k] != c
    ensures r.None? <==> c !in s
  {
    if s == [] then None
    else if s[0] == c then Some(0)
    else match IndexOf(s[1..], c)
      case None => None
      case Some(k) => Some(k + 1)
  }

  /** The domain part after the '@': a run of [^\s@] with a '.' that is neither first nor last. */
  predicate ValidDomain(d: string) {
    AllInClass(d) && |d| >= 3 && '.' in d[1..|d| - 1]
  }

  /**
   * isValidEmail: split at the first '@'; the part before must be a
   * non-empty run of [^\s@], the part after a valid domain.
   */
  predicate IsValidEmail(s: string): (b: bool)
    ensures b ==> 5 <= |s| && NoWhitespace(s) && CountOf(s, '@') == 1
  {
    match IndexOf(s, '@')
    case None => false
    case Some(i) =>
      FirstAtSplit(s, i);
      0 < i && AllInClass(s[..i]) && ValidDomain(s[i + 1..])
  }

  /**
   * A string split at its first '@' into a non-empty run of [^\s@] and a
   * valid domain has at least five characters, no whitespace and one '@'.
   */
  lemma FirstAtSplit(s: string, i: nat)
    requires IndexOf(s, '@') == Some(i)
    ensures 0 < i && AllInClass(s[..i]) && ValidDomain(s[i + 1..]) ==>
      5 <= |s| && NoWhitespace(s) && CountOf(s, '@') == 1
  {
    var d := s[i + 1..];
    if 0 < i && AllInClass(s[..i]) && ValidDomain(d) {
      assert |s| == i + 1 + |d|;
      assert CountOf(s[..i], '@') == 0 by {
        forall x | 0 <= x < i ensures s[..i][x] != '@' {
          assert InClass(s[..i][x]);
        }
      }
      assert CountOf(d, '@') == 0 by {
        forall x | 0 <= x < |d| ensures d[x] != '@' {
          assert InClass(d[x]);
        }
      }
      CountOfAround(s, i, '@');
      forall k | 0 <= k < |s| ensures !IsWhitespace(s[k]) {
        if k < i {
          assert InClass(s[..i][k]);
        } else if k > i {
          assert s[k] == d[k - i - 1];
          assert InClass(d[k - i - 1]);
        }
      }
    }
  }

  /**
   * The pattern read literally: s = a + "@" + b + "." + c where a, b and c
   * are non-empty runs of [^\s@] and the '@' is at i, the '.' at j.
   */
  ghost predicate PatternAt(s: string, i: int, j: int) {
    0 < i && i + 1 < j && j + 1 < |s| && s[i] == '@' && s[j] == '.'
    && AllInClass(s[..i]) && AllInClass(s[i + 1..j]) && AllInClass(s[j + 1..])
  }

  ghost predicate MatchesPattern(s: string) {
    exists i, j :: PatternAt(s, i, j)
  }

  /** The local part: non-empty and free of whitespace. */
  predicate LocalPartOk(l: string) {
    |l| > 0 && NoWhitespace(l)
  }

  /** The domain part: no '@', no whitespace, and a '.' with a character on either side. */
  predicate DomainPartOk(d: string) {
    '@' !in d && NoWhitespace(d) && exists k :: 0 < k < |d| - 1 && d[k] == '.'
  }

  /** An address with exactly one '@', split there into a local part and a domain part. */
  ghost predicate EmailShape(s: string) {
    CountOf(s, '@') == 1
    && exists i :: 0 <= i < |s| && s[i] == '@' && LocalPartOk(s[..i]) && DomainPartOk(s[i + 1..])
  }

  // ---------------------------------------------------------------------------
  // Lemmas

  lemma {:induction false} CountOfConcat(a: string, b: string, c: char)
    ensures CountOf(a + b, c) == CountOf(a, c) + CountOf(b, c)
  {
    if a == [] {
      assert a + b == b;
    } else {
      assert (a + b)[0] == a[0];
      assert (a + b)[1..] == a[1..] + b;
      CountOfConcat(a[1..], b, c);
    }
  }

  /** A slice of a run of [^\s@] is a run of [^\s@]. */
  lemma AllInClassSlice(t: string, lo: nat, hi: nat)
    requires AllInClass(t) && lo <= hi <= |t|
    ensures AllInClass(t[lo..hi])
  {
    forall x | 0 <= x < hi - lo ensures InClass(t[lo..hi][x]) {
      assert t[lo..hi][x] == t[lo + x];
    }
  }

  /** Counting around position i splits into the part before, the character at i and the part after. */
  lemma CountOfAround(s: string, i: nat, c: char)
    requires i < |s|
    ensures CountOf(s, c) == CountOf(s[..i], c) + (if s[i] == c then 1 else 0) + CountOf(s[i + 1..], c)
  {
    assert s == s[..i] + ([s[i]] + s[i + 1..]);
    CountOfConcat(s[..i], [s[i]] + s[i + 1..], c);
    CountOfConcat([s[i]], s[i + 1..], c);
  }

  /** An accepted address matches the pattern, and the '@' is the first one in it. */
  lemma ValidEmailMatchesPattern(s: string) returns (i: nat, j: nat)
    requires IsValidEmail(s)
    ensures PatternAt(s, i, j) && IndexOf(s, '@') == Some(i)
  {
    i := IndexOf(s, '@').value;
    var d := s[i + 1..];
    var m :| 0 <= m < |d[1..|d| - 1]| && d[1..|d| - 1][m] == '.';
    var k := m + 1;
    assert d[k] == '.';
    j := i + 1 + k;
    assert s[i + 1..j] == d[..k];
    assert s[j + 1..] == d[k + 1..];
  }

  /** Whatever matches the pattern is accepted. */
  lemma PatternIsValidEmail(s: string, i: int, j: int)
    requires PatternAt(s, i, j)
    ensures IsValidEmail(s) && IndexOf(s, '@') == Some(i)
  {
    var r := IndexOf(s, '@');
    assert r.Some? by {
      assert s[i] == '@';
    }
    assert forall x :: 0 <= x < i ==> s[x] != '@' by {
      forall x | 0 <= x < i ensures s[x] != '@' {
        assert InClass(s[..i][x]);
      }
    }
    var d := s[i + 1..];
    var k := j - i - 1;
    assert d == s[i + 1..j] + [s[j]] + s[j + 1..];
    assert InClass('.');
    assert AllInClass(d) by {
      forall x | 0 <= x < |d| ensures InClass(d[x]) {
        if x < k {
          assert d[x] == s[i + 1..j][x];
        } else if x > k {
          assert d[x] == s[j + 1..][x - k - 1];
        }
      }
    }
    assert d[1..|d| - 1][k - 1] == '.';
  }

  /** isValidEmail accepts exactly the strings the pattern matches. */
  lemma ValidEmailIffPattern(s: string)
    ensures IsValidEmail(s) <==> MatchesPattern(s)
  {
    if IsValidEmail(s) {
      var i, j := ValidEmailMatchesPattern(s);
    }
    if MatchesPattern(s) {
      var i, j :| PatternAt(s, i, j);
      PatternIsValidEmail(s, i, j);
    }
  }

  /** An accepted address has exactly one '@', and the parts around it have the stated shape. */
  lemma ValidEmailHasShape(s: string)
    requires IsValidEmail(s)
    ensures CountOf(s, '@') == 1
    ensures var i := IndexOf(s, '@').value;
            LocalPartOk(s[..i]) && DomainPartOk(s[i + 1..])
    ensures EmailShape(s)
  {
    var i, j := ValidEmailMatchesPattern(s);
    var d := s[i + 1..];
    CountOfAround(s, i, '@');
    assert '@' !in s[..i] by {
      forall x | 0 <= x < i ensures s[..i][x] != '@' {
        assert InClass(s[..i][x]);
      }
    }
    assert '@' !in d by {
      forall x | 0 <= x < |d| ensures d[x] != '@' {
        assert InClass(d[x]);
      }
    }
    assert NoWhitespace(s[..i]) by {
      forall x | 0 <= x < i ensures !IsWhitespace(s[..i][x]) {
        assert InClass(s[..i][x]);
      }
    }
    assert NoWhitespace(d) by {
      forall x | 0 <= x < |d| ensures !IsWhitespace(d[x]) {
        assert InClass(d[x]);
      }
    }
    assert d[j - i - 1] == '.';
  }

  /** Every string of the stated shape is accepted. */
  lemma ShapeIsValidEmail(s: string)
    requires EmailShape(s)
    ensures IsValidEmail(s)
  {
    var i :| 0 <= i < |s| && s[i] == '@' && LocalPartOk(s[..i]) && DomainPartOk(s[i + 1..]);
    var l, d := s[..i], s[i + 1..];
    CountOfAround(s, i, '@');
    assert CountOf(l, '@') == 0;
    assert AllInClass(l) by {
      forall x | 0 <= x < |l| ensures InClass(l[x]) {
        assert l[x] in l;
      }
    }
    assert AllInClass(d) by {
      forall x | 0 <= x < |d| ensures InClass(d[x]) {
        assert d[x] in d;
      }
    }
    var k :| 0 < k < |d| - 1 && d[k] == '.';
    var j := i + 1 + k;
    assert s[i + 1..j] == d[..k] && s[j + 1..] == d[k + 1..];
    AllInClassSlice(d, 0, k);
    AllInClassSlice(d, k + 1, |d|);
    PatternIsValidEmail(s, i, j);
  }

  /** isValidEmail holds exactly of the strings of the stated shape. */
  lemma ValidEmailIffShape(s: string)
    ensures IsValidEmail(s) <==> EmailShape(s)
  {
    if IsValidEmail(s) {
      ValidEmailHasShape(s);
    }
    if EmailShape(s) {
      ShapeIsValidEmail(s);
    }
  }

  lemma ExampleNotAnEmail()
    ensures !IsValidEmail("not-an-email")
  {
    assert '@' !in "not-an-email";
  }

  lemma ExampleUserAtExampleCom()
    ensures IsValidEmail("user@example.com")
  {
    var s := "user@example.com";
    assert s[..4] == "user" && s[5..12] == "example" && s[13..] == "com";
    PatternIsValidEmail(s, 4, 12);
  }
}
