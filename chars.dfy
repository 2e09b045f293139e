/** Characters as the lexer sees them, and the character classes it tests. */
module Chars {

  /** Both character sources cast one byte to a `char`, so every character is in 0..255. */
  type Char = c: char | c as int < 256 witness ' '

  /** Rust's `char::is_whitespace`, restricted to the byte range:
      tab, line feed, vertical tab, form feed, carriage return, space, U+0085 and U+00A0. */
  predicate IsWhitespace(c: Char)
  {
    var n := c as int;
    (9 <= n <= 13) || n == 32 || n == 0x85 || n == 0xA0
  }

  predicate IsDigit(c: Char)
  {
    '0' <= c <= '9'
  }

  /** The range `'A' ... 'z'` that dispatches to the identifier scanner. Besides the
      letters it contains `[ \ ] ^ _` and the backtick. */
  predicate IsIdentStart(c: Char)
  {
    'A' <= c <= 'z'
  }

  /** The characters an identifier may not contain. */
  predicate IsIdentInvalid(c: Char)
  {
    || c == '[' || c == ']' || c == '{' || c == '}' || c == '(' || c == ')' || c == '|'
    || c == '\\' || c == '/' || c == '\'' || c == '"' || c == '#' || c == ','
  }

  /** No whitespace character is one an identifier may not contain. */
  lemma WhitespaceNotInvalid(c: Char)
    requires IsWhitespace(c)
    ensures !IsIdentInvalid(c)
  {
  }

  predicate NoWhitespace(s: seq<Char>)
  {
    forall i | 0 <= i < |s| :: !IsWhitespace(s[i])
  }

  /** Rust's `trim_start`: drops leading whitespace. */
  function TrimStart(s: seq<Char>): (r: seq<Char>)
    ensures |r| <= |s| && r == s[|s| - |r|..]
    ensures forall i | 0 <= i < |s| - |r| :: IsWhitespace(s[i])
    ensures r == [] || !IsWhitespace(r[0])
  {
    if s != [] && IsWhitespace(s[0]) then TrimStart(s[1..]) else s
  }

  /** Rust's `trim_end`: drops trailing whitespace. */
  function TrimEnd(s: seq<Char>): (r: seq<Char>)
    ensures |r| <= |s| && r == s[..|r|]
    ensures forall i | |r| <= i < |s| :: IsWhitespace(s[i])
    ensures r == [] || !IsWhitespace(r[|r| - 1])
  {
    if s != [] && IsWhitespace(s[|s| - 1]) then TrimEnd(s[..|s| - 1]) else s
  }

  /** Rust's `str::trim`: drops leading and trailing whitespace. */
  function Trim(s: seq<Char>): seq<Char>
  {
    TrimEnd(TrimStart(s))
  }

  /** A text with no whitespace is its own trim, also when one whitespace character follows it. */
  lemma TrimPlain(s: seq<Char>, w: seq<Char>)
    requires NoWhitespace(s)
    requires |w| <= 1 && (forall i | 0 <= i < |w| :: IsWhitespace(w[i]))
    ensures Trim(s + w) == s
  {
    var t := TrimStart(s + w);
    if s == [] {
      assert t == [];
    } else {
      assert !IsWhitespace((s + w)[0]);
      assert t == s + w;
      if w != [] {
        assert (s + w)[..|s|] == s;
        assert TrimEnd(s + w) == TrimEnd(s);
      }
    }
  }
}
