/**
 * String helpers used by every stage: the identifier sanitiser (`s.replace(/\W/g, '')`),
 * joining, the last space-separated token of a string (`s.split(' ')` and its last
 * element) and the decimal rendering of integers that JavaScript applies when a number
 * is concatenated to a string.
 */
module Text {

  predicate IsAsciiLetter(c: char) { 'A' <= c <= 'Z' || 'a' <= c <= 'z' }

  predicate IsDigit(c: char) { '0' <= c <= '9' }

  /** The characters matched by JavaScript's `\w` (a regular expression without the `u` flag). */
  predicate IsWordChar(c: char) { IsAsciiLetter(c) || IsDigit(c) || c == '_' }

  predicate IsWordString(s: string) { forall i :: 0 <= i < |s| ==> IsWordChar(s[i]) }

  predicate StartsWith(s: string, prefix: string) { |prefix| <= |s| && s[..|prefix|] == prefix }

  // ---------------------------------------------------------------------------
  // Sanitiser
  // ---------------------------------------------------------------------------

  /** `s.replace(/\W/g, '')`: every character that is not a letter, digit or underscore is dropped. */
  function Sanitize(s: string): (r: string)
    ensures IsWordString(r)
    ensures |r| <= |s|
  {
    if s == [] then []
    else if IsWordChar(s[0]) then [s[0]] + Sanitize(s[1..])
    else Sanitize(s[1..])
  }

  /** Sanitising distributes over concatenation: it acts on each character independently. */
  lemma {:induction false} SanitizeAppend(a: string, b: string)
    ensures Sanitize(a + b) == Sanitize(a) + Sanitize(b)
  {
    if a != [] {
      assert (a + b)[0] == a[0];
      assert (a + b)[1..] == a[1..] + b;
      SanitizeAppend(a[1..], b);
    } else {
      assert a + b == b;
    }
  }

  /** A string is left unchanged by the sanitiser exactly when it consists of word characters only. */
  lemma {:induction false} SanitizeFixedPoint(s: string)
    ensures Sanitize(s) == s <==> IsWordString(s)
  {
    if s != [] {
      SanitizeFixedPoint(s[1..]);
      if !IsWordChar(s[0]) {
        assert |Sanitize(s)| <= |s[1..]| < |s|;
      }
    }
  }

  /** Sanitising twice gives the same result as sanitising once. */
  lemma SanitizeIdempotent(s: string)
    ensures Sanitize(Sanitize(s)) == Sanitize(s)
  {
    SanitizeFixedPoint(Sanitize(s));
  }

  // ---------------------------------------------------------------------------
  // Joining and splitting
  // ---------------------------------------------------------------------------

  /** `parts.join(sep)`, defined from the right so that a loop appending one part at a time follows it. */
  function Join(parts: seq<string>, sep: string): string
  {
    if |parts| == 0 then ""
    else if |parts| == 1 then parts[0]
    else Join(parts[..|parts| - 1], sep) + sep + parts[|parts| - 1]
  }

  /** `s.split(c)`: the maximal pieces of `s` between occurrences of `c`, defined from the right. */
  function Split(s: string, c: char): (r: seq<string>)
    ensures |r| >= 1
    decreases |s|
  {
    if c !in s then [s]
    else
      var k := LastIndexOf(s, c);
      Split(s[..k], c) + [s[k + 1..]]
  }

  /** The position of the last occurrence of `c` in `s`. */
  function LastIndexOf(s: string, c: char): (k: nat)
    requires c in s
    ensures k < |s| && s[k] == c && c !in s[k + 1..]
  {
    if s[|s| - 1] == c then |s| - 1
    else
      assert c in s[..|s| - 1] by {
        var i :| 0 <= i < |s| && s[i] == c;
        assert s[..|s| - 1][i] == c;
      }
      var k := LastIndexOf(s[..|s| - 1], c);
      assert s[k + 1..] == s[..|s| - 1][k + 1..] + [s[|s| - 1]];
      k
  }

  /** In `a + [c] + b` with no `c` in `b`, the last `c` is the one between `a` and `b`. */
  lemma LastIndexOfBefore(a: string, c: char, b: string)
    requires c !in b
    ensures LastIndexOf(a + [c] + b, c) == |a|
  {
    var s := a + [c] + b;
    var k := LastIndexOf(s, c);
    forall i | k < i < |s| ensures s[i] != c { assert s[i] == s[k + 1..][i - k - 1]; }
    forall i | |a| < i < |s| ensures s[i] != c { assert s[i] == b[i - |a| - 1]; }
    assert s[|a|] == c;
  }

  /** Splitting a joined list on a separator character that no part contains recovers the parts. */
  lemma {:induction false} SplitJoin(parts: seq<string>, c: char)
    requires |parts| >= 1
    requires forall i :: 0 <= i < |parts| ==> c !in parts[i]
    ensures Split(Join(parts, [c]), c) == parts
  {
    if |parts| > 1 {
      var init := parts[..|parts| - 1];
      var last := parts[|parts| - 1];
      assert forall i :: 0 <= i < |init| ==> c !in init[i] by {
        forall i | 0 <= i < |init| ensures c !in init[i] { assert init[i] == parts[i]; }
      }
      SplitJoin(init, c);
      SplitJoinStep(parts, c);
    }
  }

  lemma SplitJoinStep(parts: seq<string>, c: char)
    requires |parts| > 1 && c !in parts[|parts| - 1]
    requires Split(Join(parts[..|parts| - 1], [c]), c) == parts[..|parts| - 1]
    ensures Split(Join(parts, [c]), c) == parts
  {
    JoinLast(parts, [c]);
    SplitAtLast(Join(parts[..|parts| - 1], [c]), c, parts[|parts| - 1]);
    assert parts == parts[..|parts| - 1] + [parts[|parts| - 1]];
  }

  lemma JoinLast(parts: seq<string>, sep: string)
    requires |parts| > 1
    ensures Join(parts, sep) == Join(parts[..|parts| - 1], sep) + sep + parts[|parts| - 1]
  {
  }

  /** The piece after the last separator is split off last. */
  lemma SplitAtLast(a: string, c: char, b: string)
    requires c !in b
    ensures Split(a + [c] + b, c) == Split(a, c) + [b]
  {
    var s := a + [c] + b;
    LastIndexOfBefore(a, c, b);
    assert c in s by { assert s[|a|] == c; }
    assert s[..|a|] == a;
    assert s[|a| + 1..] == b;
  }

  // ---------------------------------------------------------------------------
  // Last space-separated token
  // ---------------------------------------------------------------------------

  /**
   * The last element of `s.split(' ')`: the (possibly empty) text after the last space,
   * or all of `s` when it has no space.
   */
  function LastToken(s: string): (r: string)
    ensures ' ' !in r
    ensures |r| <= |s|
  {
    if s == [] then []
    else if s[|s| - 1] == ' ' then []
    else LastToken(s[..|s| - 1]) + [s[|s| - 1]]
  }

  /** The last token is a suffix, preceded by a space unless it is all of `s`. */
  lemma {:induction false} LastTokenIsSuffix(s: string)
    ensures var r := LastToken(s);
      r == s[|s| - |r|..] && (|r| == |s| || s[|s| - |r| - 1] == ' ')
  {
    if s != [] && s[|s| - 1] != ' ' {
      var init := s[..|s| - 1];
      LastTokenIsSuffix(init);
      var r0 := LastToken(init);
      assert init[|init| - |r0|..] + [s[|s| - 1]] == s[|s| - |r0| - 1..];
    }
  }

  /** The last token of a string is what follows its last space. */
  lemma {:induction false} LastTokenAfterSpace(a: string, b: string)
    requires ' ' !in b
    ensures LastToken(a + [' '] + b) == b
  {
    var s := a + [' '] + b;
    if b != [] {
      var b0 := b[..|b| - 1];
      assert s[..|s| - 1] == a + [' '] + b0;
      LastTokenAfterSpace(a, b0);
      assert b0 + [b[|b| - 1]] == b;
    }
  }

  /** A string without spaces is its own last token. */
  lemma {:induction false} LastTokenOfSpaceFree(s: string)
    requires ' ' !in s
    ensures LastToken(s) == s
  {
    if s != [] {
      var init := s[..|s| - 1];
      assert ' ' !in init by {
        forall i | 0 <= i < |init| ensures init[i] != ' ' { assert init[i] == s[i]; }
      }
      assert s[|s| - 1] in s;
      LastTokenOfSpaceFree(init);
      assert init + [s[|s| - 1]] == s;
    }
  }

  /** The last token is indeed the last piece `split(' ')` produces. */
  lemma LastTokenIsLastPiece(s: string)
    ensures LastToken(s) == Split(s, ' ')[|Split(s, ' ')| - 1]
  {
    if ' ' in s {
      var r := LastToken(s);
      LastTokenIsSuffix(s);
      assert |r| < |s|;
      var p := s[..|s| - |r| - 1];
      assert s == p + [' '] + r;
      LastIndexOfBefore(p, ' ', r);
    }
  }

  // ---------------------------------------------------------------------------
  // Decimal rendering of numbers
  // ---------------------------------------------------------------------------

  function DigitChar(d: nat): (c: char)
    requires d < 10
    ensures IsDigit(c)
  {
    ('0' as int + d) as char
  }

  function DigitValue(c: char): int { c as int - '0' as int }

  /** The decimal digits of `n`, most significant first, as `'' + n` prints them. */
  function NatToString(n: nat): (r: string)
    ensures |r| >= 1
    ensures forall i :: 0 <= i < |r| ==> IsDigit(r[i])
    decreases n
  {
    if n < 10 then [DigitChar(n)] else NatToString(n / 10) + [DigitChar(n % 10)]
  }

  /** `'' + i` for an integer `i`. */
  function IntToString(i: int): string
  {
    if i < 0 then "-" + NatToString(-i) else NatToString(i)
  }

  /** Reads a string of decimal digits back as a number. */
  function ParseDecimal(s: string): nat
  {
    if s == [] then 0
    else
      var d := DigitValue(s[|s| - 1]);
      ParseDecimal(s[..|s| - 1]) * 10 + (if 0 <= d then d else 0)
  }

  /** Rendering a number in decimal and reading it back gives the number. */
  lemma {:induction false} ParseNatToString(n: nat)
    ensures ParseDecimal(NatToString(n)) == n
  {
    if n >= 10 {
      var s := NatToString(n);
      assert s[..|s| - 1] == NatToString(n / 10);
      ParseNatToString(n / 10);
    }
  }

  /** Distinct numbers have distinct decimal renderings. */
  lemma NatToStringInjective(m: nat, n: nat)
    requires NatToString(m) == NatToString(n)
    ensures m == n
  {
    ParseNatToString(m);
    ParseNatToString(n);
  }

  predicate EndsWithDigit(s: string) { |s| > 0 && IsDigit(s[|s| - 1]) }

  /**
   * A name followed by the decimal digits of a number determines both, as long as the
   * name does not itself end with a digit.
   */
  lemma {:induction false} NameNumberInjective(a: string, m: nat, b: string, n: nat)
    requires !EndsWithDigit(a) && !EndsWithDigit(b)
    requires a + NatToString(m) == b + NatToString(n)
    ensures a == b && m == n
  {
    var s := a + NatToString(m);
    var dm, dn := NatToString(m), NatToString(n);
    assert forall i :: |a| <= i < |s| ==> IsDigit(s[i]) by {
      forall i | |a| <= i < |s| ensures IsDigit(s[i]) { assert s[i] == dm[i - |a|]; }
    }
    assert forall i :: |b| <= i < |s| ==> IsDigit(s[i]) by {
      forall i | |b| <= i < |s| ensures IsDigit(s[i]) { assert s[i] == dn[i - |b|]; }
    }
    assert |a| > 0 ==> s[|a| - 1] == a[|a| - 1];
    assert |b| > 0 ==> s[|b| - 1] == b[|b| - 1];
    assert |a| == |b|;
    assert a == s[..|a|] && b == s[..|b|];
    assert dm == s[|a|..] && dn == s[|b|..];
    NatToStringInjective(m, n);
  }
}
