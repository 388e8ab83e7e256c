/**
 * The part of GraphQL's lexical grammar (section 2.1, Source Text, of the GraphQL
 * specification) that the generated schema text exercises: names are maximal runs of
 * `[_A-Za-z0-9]` starting with `[_A-Za-z]`; spaces, tabs, line ends and commas are
 * insignificant; every other character is read as a one-character punctuator. Numbers,
 * strings, comments and `...` do not occur in the generated text and are not modelled.
 */
module GraphQLLexer {
  import opened Text

  datatype Token = Name(text: string) | Punct(c: char)

  predicate IsNameStart(c: char) { IsAsciiLetter(c) || c == '_' }

  predicate IsIgnored(c: char) { c == ' ' || c == ',' || c == '\t' || c == '\n' || c == '\r' }

  /** A GraphQL `Name`. */
  predicate IsGraphQLName(s: string) { s != [] && IsNameStart(s[0]) && IsWordString(s) }

  /** The end of the name run that continues at position `i`. */
  function NameEnd(s: string, i: nat): (r: nat)
    requires i <= |s|
    ensures i <= r <= |s|
    ensures forall k :: i <= k < r ==> IsWordChar(s[k])
    ensures r == |s| || !IsWordChar(s[r])
    decreases |s| - i
  {
    if i == |s| || !IsWordChar(s[i]) then i else NameEnd(s, i + 1)
  }

  /** The tokens of `s`, longest name first. */
  function Lex(s: string): seq<Token>
    decreases |s|
  {
    if s == [] then []
    else if IsIgnored(s[0]) then Lex(s[1..])
    else if IsNameStart(s[0]) then
      var n := NameEnd(s, 1);
      [Name(s[..n])] + Lex(s[n..])
    else [Punct(s[0])] + Lex(s[1..])
  }

  /** Two texts can be lexed separately when no name runs across the boundary between them. */
  predicate Separable(a: string, b: string)
  {
    a == [] || b == [] || !IsWordChar(a[|a| - 1]) || !IsWordChar(b[0])
  }

  lemma {:induction false} NameEndAppend(a: string, b: string, i: nat)
    requires 1 <= i <= |a| && IsWordChar(a[i - 1]) && Separable(a, b)
    ensures NameEnd(a + b, i) == NameEnd(a, i)
    decreases |a| - i
  {
    if i < |a| {
      assert (a + b)[i] == a[i];
      if IsWordChar(a[i]) {
        NameEndAppend(a, b, i + 1);
      }
    } else if b != [] {
      assert (a + b)[i] == b[0];
    }
  }

  /** Lexing distributes over a concatenation whose boundary no name crosses. */
  lemma {:induction false} LexAppend(a: string, b: string)
    requires Separable(a, b)
    ensures Lex(a + b) == Lex(a) + Lex(b)
    decreases |a|
  {
    if a == [] {
      assert a + b == b;
    } else {
      var s := a + b;
      assert s[0] == a[0];
      if IsIgnored(a[0]) || !IsNameStart(a[0]) {
        assert s[1..] == a[1..] + b;
        LexAppend(a[1..], b);
      } else {
        NameEndAppend(a, b, 1);
        var n := NameEnd(a, 1);
        assert s[..n] == a[..n];
        assert s[n..] == a[n..] + b;
        LexAppend(a[n..], b);
      }
    }
  }

  /** A name on its own is one token. */
  lemma LexName(s: string)
    requires IsGraphQLName(s)
    ensures Lex(s) == [Name(s)]
  {
    assert !IsIgnored(s[0]);
    assert NameEnd(s, 1) == |s|;
    assert s[..|s|] == s;
    assert s[|s|..] == [];
  }

  /** Three pieces with separable boundaries lex piece by piece. */
  lemma LexAppend3(a: string, b: string, c: string)
    requires Separable(a, b) && Separable(a + b, c)
    ensures Lex(a + b + c) == Lex(a) + Lex(b) + Lex(c)
  {
    LexAppend(a, b);
    LexAppend(a + b, c);
  }

  /** Lexing splits after a character that cannot continue a name. */
  lemma LexSplitAfter(a: string, b: string)
    requires a != [] && !IsWordChar(a[|a| - 1])
    ensures Lex(a + b) == Lex(a) + Lex(b)
  {
    LexAppend(a, b);
  }

  /** Lexing splits before a character that cannot continue a name. */
  lemma LexSplitBefore(a: string, b: string)
    requires b != [] && !IsWordChar(b[0])
    ensures Lex(a + b) == Lex(a) + Lex(b)
  {
    LexAppend(a, b);
  }

  /** The boundary after a text ending in a non-name character, or before one starting with it. */
  lemma SeparableAfter(a: string, b: string)
    requires a != [] && !IsWordChar(a[|a| - 1])
    ensures Separable(a, b)
  {
  }

  /** Proof step, not a property of the source: appending keeps the last character. */
  lemma LastOfAppend(a: string, b: string)
    requires b != []
    ensures (a + b)[|a + b| - 1] == b[|b| - 1]
  {
  }

  /** Proof step, not a property of the source: prepending keeps the first character. */
  lemma FirstOfAppend(a: string, b: string)
    requires a != []
    ensures (a + b)[0] == a[0]
  {
  }
}
