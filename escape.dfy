/**
 * The `escapeRegExp` helper: a backslash is put before every character that
 * is a metacharacter of JavaScript regular expressions, so that the result,
 * read on its own, is a literal pattern for the user-supplied string.
 */
module RegExpEscape {

  /** The fourteen characters the helper escapes: . * + ? ^ $ { } ( ) | [ ] \ */
  predicate IsSpecial(c: char) {
    c == '.' || c == '*' || c == '+' || c == '?' || c == '^' || c == '$' ||
    c == '{' || c == '}' || c == '(' || c == ')' || c == '|' ||
    c == '[' || c == ']' || c == '\\'
  }

  /** Number of special characters in `s`. */
  function CountSpecial(s: string): nat {
    if s == [] then 0 else (if IsSpecial(s[0]) then 1 else 0) + CountSpecial(s[1..])
  }

  /** How one input character appears in the output. */
  function EscapeChar(c: char): (r: string)
    ensures |r| == if IsSpecial(c) then 2 else 1
    ensures r[|r| - 1] == c
  {
    if IsSpecial(c) then ['\\', c] else [c]
  }

  /** The global replacement: every special character gets one backslash in front of it. */
  function EscapeRegExp(s: string): (r: string)
    ensures |r| == |s| + CountSpecial(s)
    ensures |r| >= |s|
  {
    if s == [] then [] else EscapeChar(s[0]) + EscapeRegExp(s[1..])
  }

  /**
   * Reading a pattern as literal text: a backslash makes the next character
   * literal, every other character stands for itself.
   */
  function Unescape(r: string): (s: string)
    ensures |s| <= |r|
  {
    if r == [] then []
    else if r[0] == '\\' && |r| >= 2 then [r[1]] + Unescape(r[2..])
    else [r[0]] + Unescape(r[1..])
  }

  /**
   * A pattern that, read as a regular expression, is a plain string: every
   * special character it contains is escaped, and a backslash only ever
   * escapes a special character.
   */
  predicate Literal(r: string) {
    if r == [] then true
    else if r[0] == '\\' then |r| >= 2 && IsSpecial(r[1]) && Literal(r[2..])
    else !IsSpecial(r[0]) && Literal(r[1..])
  }

  /** Escaping distributes over concatenation, so the output is the input escaped character by character. */
  lemma {:induction false} EscapeAppend(a: string, b: string)
    ensures EscapeRegExp(a + b) == EscapeRegExp(a) + EscapeRegExp(b)
  {
    if a == [] {
      assert a + b == b;
    } else {
      assert (a + b)[0] == a[0];
      assert (a + b)[1..] == a[1..] + b;
      EscapeAppend(a[1..], b);
    }
  }

  /** Every character outside the special set is copied unchanged; each special one gets exactly one backslash. */
  lemma EscapeAt(s: string, i: nat)
    requires i < |s|
    ensures EscapeRegExp(s) == EscapeRegExp(s[..i]) + EscapeChar(s[i]) + EscapeRegExp(s[i+1..])
  {
    var before, at, after := s[..i], [s[i]], s[i+1..];
    calc {
      EscapeRegExp(s);
      { SplitAt(s, i); }
      EscapeRegExp(before + at + after);
      { EscapeAppend(before + at, after); }
      EscapeRegExp(before + at) + EscapeRegExp(after);
      { EscapeAppend(before, at); EscapeSingle(s[i]); }
      EscapeRegExp(before) + EscapeChar(s[i]) + EscapeRegExp(after);
    }
  }

  lemma SplitAt(s: string, i: nat)
    requires i < |s|
    ensures s == s[..i] + [s[i]] + s[i+1..]
  {
  }

  lemma EscapeSingle(c: char)
    ensures EscapeRegExp([c]) == EscapeChar(c)
  {
    assert [c][1..] == [];
  }

  /** Removing the inserted backslashes gives the input back. */
  lemma {:induction false} UnescapeEscape(s: string)
    ensures Unescape(EscapeRegExp(s)) == s
  {
    if s != [] {
      var t := EscapeRegExp(s[1..]);
      UnescapeEscape(s[1..]);
      if IsSpecial(s[0]) {
        assert EscapeRegExp(s) == ['\\', s[0]] + t;
        assert (['\\', s[0]] + t)[2..] == t;
      } else {
        assert EscapeRegExp(s) == [s[0]] + t;
        assert ([s[0]] + t)[1..] == t;
      }
    }
  }

  /** The output contains no unescaped metacharacter: read on its own, it is a literal for the input. */
  lemma {:induction false} EscapeIsLiteral(s: string)
    ensures Literal(EscapeRegExp(s))
  {
    if s != [] {
      var t := EscapeRegExp(s[1..]);
      EscapeIsLiteral(s[1..]);
      if IsSpecial(s[0]) {
        assert EscapeRegExp(s) == ['\\', s[0]] + t;
        assert (['\\', s[0]] + t)[2..] == t;
      } else {
        assert EscapeRegExp(s) == [s[0]] + t;
        assert ([s[0]] + t)[1..] == t;
      }
    }
  }

  /** Conversely, every literal pattern is the escaping of the text it stands for. */
  lemma {:induction false} LiteralIsEscaped(r: string)
    requires Literal(r)
    ensures EscapeRegExp(Unescape(r)) == r
  {
    if r != [] {
      if r[0] == '\\' {
        LiteralIsEscaped(r[2..]);
        var u := Unescape(r[2..]);
        assert Unescape(r) == [r[1]] + u;
        assert ([r[1]] + u)[1..] == u;
        assert r == ['\\', r[1]] + r[2..];
      } else {
        LiteralIsEscaped(r[1..]);
        var u := Unescape(r[1..]);
        assert Unescape(r) == [r[0]] + u;
        assert ([r[0]] + u)[1..] == u;
        assert r == [r[0]] + r[1..];
      }
    }
  }

  /** Escaping is injective: different inputs never produce the same pattern. */
  lemma EscapeInjective(s: string, t: string)
    requires EscapeRegExp(s) == EscapeRegExp(t)
    ensures s == t
  {
    UnescapeEscape(s);
    UnescapeEscape(t);
  }
}
