/** Properties of the tokenizer specification in module Scanner. Because both character
    sources are proved to follow the same cursor functions, each property holds for the
    buffer source and for the streaming source alike. */
module ScannerFacts {
  import opened Wrappers
  import opened Chars
  import opened Position
  import opened Tokens
  import opened Scanner

  lemma AdvancedRefl(c: Cursor)
    ensures Advanced(c, c)
  {
    assert Consumed(c, c) == [];
  }

  /** Whitespace skipping only consumes, and the position follows what it consumed. */
  lemma {:induction false} SkipWhitespaceAdvances(c: Cursor)
    ensures Advanced(c, SkipWhitespace(c))
    decreases |c.rest|
  {
    if c.rest != [] && IsWhitespace(c.rest[0]) {
      GetAdvances(c);
      SkipWhitespaceAdvances(Get(c).1);
      AdvancedTrans(c, Get(c).1, SkipWhitespace(c));
    } else {
      AdvancedRefl(c);
    }
  }

  /** Whitespace skipping consumes exactly the leading run of whitespace. */
  lemma {:induction false} SkipWhitespaceRun(w: seq<Char>, r: seq<Char>, p: Pos)
    requires forall i | 0 <= i < |w| :: IsWhitespace(w[i])
    requires r == [] || !IsWhitespace(r[0])
    ensures SkipWhitespace(Cursor(w + r, p)) == Cursor(r, Walk(p, w))
    decreases |w|
  {
    if w == [] {
      assert w + r == r;
    } else {
      GetCons(w[0], w[1..] + r, p);
      assert w + r == [w[0]] + (w[1..] + r);
      SkipWhitespaceRun(w[1..], r, Count(p, w[0]));
    }
  }

  lemma {:induction false} CommentLoopAdvances(c: Cursor, acc: seq<Char>)
    ensures Advanced(c, CommentLoop(c, acc).1)
    decreases |c.rest|
  {
    GetAdvances(c);
    var (o, d) := Get(c);
    if o.Some? && o.value != '\n' {
      CommentLoopAdvances(d, acc + [o.value]);
      AdvancedTrans(c, d, CommentLoop(c, acc).1);
    }
  }

  lemma {:induction false} StringLoopAdvances(c: Cursor, acc: seq<Char>, line: nat, chr: nat)
    ensures Advanced(c, StringLoop(c, acc, line, chr).1)
    decreases |c.rest|
  {
    GetAdvances(c);
    var (o, d) := Get(c);
    if o.Some? {
      var x := o.value;
      if x == '\\' {
        GetAdvances(d);
        var (o2, d2) := Get(d);
        AdvancedTrans(c, d, d2);
        if o2.Some? {
          StringLoopAdvances(d2, acc + [o2.value], line, chr);
          AdvancedTrans(c, d2, StringLoop(c, acc, line, chr).1);
        }
      } else if x != '\n' && x != '"' {
        StringLoopAdvances(d, acc + [x], line, chr);
        AdvancedTrans(c, d, StringLoop(c, acc, line, chr).1);
      }
    }
  }

  lemma {:induction false} NumberLoopAdvances(c: Cursor, acc: seq<Char>, isFloat: bool, line: nat, chr: nat)
    ensures Advanced(c, NumberLoop(c, acc, isFloat, line, chr).1)
    decreases |c.rest|
  {
    GetAdvances(c);
    var (o, d) := Get(c);
    if o.Some? {
      var x := o.value;
      if IsDigit(x) || (x == '.' && !isFloat) {
        NumberLoopAdvances(d, acc + [x], isFloat || x == '.', line, chr);
        AdvancedTrans(c, d, NumberLoop(c, acc, isFloat, line, chr).1);
      }
    }
  }

  lemma {:induction false} IdentLoopAdvances(c: Cursor, acc: seq<Char>, line: nat, chr: nat)
    ensures Advanced(c, IdentLoop(c, acc, line, chr).1)
    decreases |c.rest|
  {
    GetAdvances(c);
    var (o, d) := Get(c);
    if o.Some? && !IsIdentInvalid(o.value) && !IsWhitespace(o.value) {
      IdentLoopAdvances(d, acc + [o.value], line, chr);
      AdvancedTrans(c, d, IdentLoop(c, acc, line, chr).1);
    }
  }

  lemma ScanTokenAdvances(c: Cursor)
    ensures Advanced(c, ScanToken(c).1)
  {
    GetAdvances(c);
    match Peek(c)
    case None => AdvancedRefl(c);
    case Some(x) =>
      if x == '(' || x == ')' {
      } else if x == ';' {
        CommentLoopAdvances(c, []);
      } else if x == '"' {
        StringLoopAdvances(Get(c).1, [], c.pos.line, c.pos.chr);
        AdvancedTrans(c, Get(c).1, ScanToken(c).1);
      } else if IsDigit(x) || x == '-' || x == '.' {
        if x == '-' {
          NumberLoopAdvances(Get(c).1, ['-'], false, c.pos.line, c.pos.chr);
          AdvancedTrans(c, Get(c).1, ScanToken(c).1);
        } else {
          NumberLoopAdvances(c, [], false, c.pos.line, c.pos.chr);
        }
      } else if IsIdentStart(x) {
        IdentLoopAdvances(c, [], c.pos.line, c.pos.chr);
      } else {
        AdvancedRefl(c);
      }
  }

  /** Every call of `next` only consumes input, and leaves the source at the position
      reached by applying `count` to each character it consumed. */
  lemma ScanNextAdvances(c: Cursor)
    ensures Advanced(c, ScanNext(c).1)
  {
    var d := SkipWhitespace(c);
    SkipWhitespaceAdvances(c);
    if d.rest != [] {
      ScanTokenAdvances(d);
      AdvancedTrans(c, d, ScanNext(c).1);
    }
  }

  /** The characters the dispatch of `read_token` hands to a scanner. */
  predicate StartsToken(x: Char)
  {
    x == '(' || x == ')' || x == ';' || x == '"' || IsDigit(x) || x == '-' || x == '.' || IsIdentStart(x)
  }

  /** `t` is a token of the kind that the lookahead `x` dispatches to. */
  predicate Opens(t: Token, x: Char)
  {
    match t
    case LPAR(_, _) => x == '('
    case RPAR(_, _) => x == ')'
    case COMMENT(_, _, _) => x == ';'
    case STRING(_, _, _) => x == '"'
    case INTEGER(_, _, _) => IsDigit(x) || x == '-' || x == '.'
    case FLOAT(_, _, _) => IsDigit(x) || x == '-' || x == '.'
    case IDENT(_, _, _) => IsIdentStart(x)
  }

  /** `read_token` on a lookahead `x`: the result carries the position before `x`; a token
      is of the kind `x` dispatches to; a character that starts no token gives INVALID and
      consumes nothing; END is never returned. */
  lemma ScanTokenStart(c: Cursor)
    requires c.rest != []
    ensures PosOf(ScanToken(c).0) == c.pos
    ensures ScanToken(c).0.Ok? ==> Opens(ScanToken(c).0.value, c.rest[0])
    ensures ScanToken(c).0.Err? ==> !ScanToken(c).0.error.END?
    ensures (ScanToken(c).0.Err? && ScanToken(c).0.error.INVALID?) <==> !StartsToken(c.rest[0])
    ensures !StartsToken(c.rest[0]) ==> ScanToken(c) == (Err(INVALID(c.rest[0], c.pos.line, c.pos.chr)), c)
  {
  }

  /** Every token and error of `next` carries the position of the first character after
      the skipped whitespace, and a token is of the kind that character dispatches to. */
  lemma ScanNextPosition(c: Cursor)
    ensures var d := SkipWhitespace(c);
      && Advanced(c, d)
      && (forall i | 0 <= i < |Consumed(c, d)| :: IsWhitespace(Consumed(c, d)[i]))
      && PosOf(ScanNext(c).0) == d.pos
      && (ScanNext(c).0.Ok? ==> d.rest != [] && Opens(ScanNext(c).0.value, d.rest[0]))
  {
    SkipWhitespaceAdvances(c);
    var d := SkipWhitespace(c);
    assert Consumed(c, d) == c.rest[..|c.rest| - |d.rest|];
    if d.rest != [] {
      ScanTokenStart(d);
      assert ScanNext(c) == ScanToken(d);
    } else {
      assert ScanNext(c) == (Err(END(d.pos.line, d.pos.chr)), d);
    }
  }

  /** `next` returns END exactly when nothing but whitespace remains. */
  lemma ScanNextEnd(c: Cursor)
    ensures (ScanNext(c).0.Err? && ScanNext(c).0.error.END?)
        <==> (forall i | 0 <= i < |c.rest| :: IsWhitespace(c.rest[i]))
  {
    var d := SkipWhitespace(c);
    if d.rest != [] {
      ScanTokenStart(d);
      assert d.rest[0] == c.rest[|c.rest| - |d.rest|];
    }
  }

  /** When nothing but whitespace remains, `next` consumes all of it and reports END at
      the position after it. */
  lemma ScanNextEndPosition(c: Cursor)
    requires forall i | 0 <= i < |c.rest| :: IsWhitespace(c.rest[i])
    ensures var p := Walk(c.pos, c.rest);
      ScanNext(c) == (Err(END(p.line, p.chr)), Cursor([], p))
  {
    assert c.rest + [] == c.rest;
    SkipWhitespaceRun(c.rest, [], c.pos);
  }

  /** `next` returns INVALID exactly when the first non-whitespace character starts no
      token; the error names that character and its position, and it stays unconsumed. */
  lemma ScanNextInvalid(c: Cursor)
    ensures var d := SkipWhitespace(c);
      (ScanNext(c).0.Err? && ScanNext(c).0.error.INVALID?) <==> (d.rest != [] && !StartsToken(d.rest[0]))
    ensures var d := SkipWhitespace(c);
      d.rest != [] && !StartsToken(d.rest[0]) ==>
      ScanNext(c) == (Err(INVALID(d.rest[0], d.pos.line, d.pos.chr)), d)
  {
    var d := SkipWhitespace(c);
    if d.rest != [] {
      ScanTokenStart(d);
    }
  }

  // ---------------------------------------------------------------------------
  // Strings

  /** How a character is written inside a string literal so that it reads back as itself:
      a quote, a backslash and a line feed are preceded by a backslash. */
  function EscapeChar(x: Char): seq<Char>
  {
    if x == '"' || x == '\\' || x == '\n' then ['\\', x] else [x]
  }

  function Escape(t: seq<Char>): seq<Char>
  {
    if t == [] then [] else EscapeChar(t[0]) + Escape(t[1..])
  }

  /** A backslash takes whatever character follows it, verbatim, and both are consumed. */
  lemma StringLoopBackslash(y: Char, r: seq<Char>, p: Pos, acc: seq<Char>, line: nat, chr: nat)
    ensures StringLoop(Cursor(['\\', y] + r, p), acc, line, chr)
         == StringLoop(Cursor(r, Count(Count(p, '\\'), y)), acc + [y], line, chr)
  {
    assert ['\\', y] + r == ['\\'] + ([y] + r);
    GetCons('\\', [y] + r, p);
    GetCons(y, r, Count(p, '\\'));
  }

  /** Any character other than a backslash, a line feed or a quote is appended as it is. */
  lemma StringLoopPlain(x: Char, r: seq<Char>, p: Pos, acc: seq<Char>, line: nat, chr: nat)
    requires x != '\\' && x != '\n' && x != '"'
    ensures StringLoop(Cursor([x] + r, p), acc, line, chr) == StringLoop(Cursor(r, Count(p, x)), acc + [x], line, chr)
  {
    GetCons(x, r, p);
  }

  /** Scanning the escaped form of one character appends exactly that character. */
  lemma StringLoopEscapedChar(x: Char, r: seq<Char>, p: Pos, acc: seq<Char>, line: nat, chr: nat)
    ensures StringLoop(Cursor(EscapeChar(x) + r, p), acc, line, chr)
         == StringLoop(Cursor(r, Walk(p, EscapeChar(x))), acc + [x], line, chr)
  {
    if x == '"' || x == '\\' || x == '\n' {
      StringLoopBackslash(x, r, p, acc, line, chr);
      WalkAppend(p, ['\\'], [x]);
      WalkOne(p, '\\');
      WalkOne(Count(p, '\\'), x);
      assert ['\\', x] == ['\\'] + [x];
    } else {
      StringLoopPlain(x, r, p, acc, line, chr);
      WalkOne(p, x);
    }
  }

  /** Scanning the escaped form of `t` inside a string literal appends exactly `t`. */
  lemma {:induction false} StringLoopEscaped(t: seq<Char>, r: seq<Char>, p: Pos, acc: seq<Char>, line: nat, chr: nat)
    ensures StringLoop(Cursor(Escape(t) + r, p), acc, line, chr)
         == StringLoop(Cursor(r, Walk(p, Escape(t))), acc + t, line, chr)
    decreases |t|
  {
    if t == [] {
      assert Escape(t) + r == r && acc + t == acc;
    } else {
      var x, e := t[0], EscapeChar(t[0]);
      var rest := Escape(t[1..]) + r;
      assert Escape(t) + r == e + rest;
      StringLoopEscapedChar(x, rest, p, acc, line, chr);
      StringLoopEscaped(t[1..], r, Walk(p, e), acc + [x], line, chr);
      WalkAppend(p, e, Escape(t[1..]));
      assert acc + [x] + t[1..] == acc + t;
    }
  }

  /** A literal written as a quote, the escaped text and a closing quote reads back as
      that text, at the position of the opening quote, and consumes exactly the literal. */
  lemma StringRoundTrip(t: seq<Char>, r: seq<Char>, p: Pos)
    ensures var lit := ['"'] + Escape(t) + ['"'];
      ScanString(Cursor(lit + r, p)) == (Ok(STRING(t, p.line, p.chr)), Cursor(r, Walk(p, lit)))
  {
    var e := Escape(t);
    var lit := ['"'] + e + ['"'];
    var p1 := Count(p, '"');
    var q := Walk(p1, e);
    assert lit + r == ['"'] + (e + (['"'] + r));
    GetCons('"', e + (['"'] + r), p);
    StringLoopEscaped(t, ['"'] + r, p1, [], p.line, p.chr);
    GetCons('"', r, q);
    assert [] + t == t;
    assert StringLoop(Cursor(['"'] + r, q), t, p.line, p.chr) == (Ok(STRING(t, p.line, p.chr)), Cursor(r, Count(q, '"')));
    assert lit == ['"'] + (e + ['"']);
    WalkAppend(p, ['"'], e + ['"']);
    WalkOne(p, '"');
    WalkSnoc(p1, e, '"');
  }

  /** A literal cut short by the end of input, by a backslash at the end of input, or by a
      raw line feed is UNTERMINATED, carrying the text read so far and the opening position. */
  lemma StringUnterminated(t: seq<Char>, tail: seq<Char>, p: Pos)
    requires tail == [] || tail == ['\\'] || (tail != [] && tail[0] == '\n')
    ensures ScanString(Cursor(['"'] + Escape(t) + tail, p)).0 == Err(UNTERMINATED(t, p.line, p.chr))
  {
    var e := Escape(t);
    var p1 := Count(p, '"');
    var q := Walk(p1, e);
    assert ['"'] + e + tail == ['"'] + (e + tail);
    GetCons('"', e + tail, p);
    StringLoopEscaped(t, tail, p1, [], p.line, p.chr);
    assert [] + t == t;
    if tail != [] {
      GetCons(tail[0], tail[1..], q);
      assert [tail[0]] + tail[1..] == tail;
    }
  }

  // ---------------------------------------------------------------------------
  // Numbers

  function Dots(s: seq<Char>): nat
  {
    if s == [] then 0 else (if s[0] == '.' then 1 else 0) + Dots(s[1..])
  }

  lemma {:induction false} DotsAppend(s: seq<Char>, t: seq<Char>)
    ensures Dots(s + t) == Dots(s) + Dots(t)
    decreases |s|
  {
    if s == [] {
      assert s + t == t;
    } else {
      assert (s + t)[1..] == s[1..] + t;
      DotsAppend(s[1..], t);
    }
  }

  /** Digits with at most one dot among them. */
  predicate NumeralBody(s: seq<Char>)
  {
    (forall i | 0 <= i < |s| :: IsDigit(s[i]) || s[i] == '.') && Dots(s) <= 1
  }

  /** The text of a number token: an optional minus sign, then digits with at most one dot. */
  predicate IsNumeral(s: seq<Char>)
  {
    NumeralBody(s) || (s != [] && s[0] == '-' && NumeralBody(s[1..]))
  }

  lemma NumeralPlain(s: seq<Char>)
    requires IsNumeral(s)
    ensures NoWhitespace(s)
  {
    forall i | 0 <= i < |s| ensures !IsWhitespace(s[i]) {
      if !NumeralBody(s) && i > 0 {
        assert s[i] == s[1..][i - 1];
      }
    }
  }

  /** Scanning digits and (at most one, counting the flag) dot continues the loop with
      them pushed and the float flag set iff a dot was seen. */
  lemma {:induction false} NumberLoopRun(body: seq<Char>, r: seq<Char>, p: Pos, acc: seq<Char>,
                                        isFloat: bool, line: nat, chr: nat)
    requires forall i | 0 <= i < |body| :: IsDigit(body[i]) || body[i] == '.'
    requires Dots(body) + (if isFloat then 1 else 0) <= 1
    ensures NumberLoop(Cursor(body + r, p), acc, isFloat, line, chr)
         == NumberLoop(Cursor(r, Walk(p, body)), acc + body, isFloat || Dots(body) > 0, line, chr)
    decreases |body|
  {
    if body == [] {
      assert body + r == r && acc + body == acc;
    } else {
      var x := body[0];
      assert (body + r)[0] == x && (body + r)[1..] == body[1..] + r;
      assert NumberLoop(Cursor(body + r, p), acc, isFloat, line, chr)
          == NumberLoop(Cursor(body[1..] + r, Count(p, x)), acc + [x], isFloat || x == '.', line, chr);
      NumberLoopRun(body[1..], r, Count(p, x), acc + [x], isFloat || x == '.', line, chr);
      assert acc + [x] + body[1..] == acc + body;
    }
  }

  /** `number` consumes a numeral (minus sign included) and continues with it pushed. */
  lemma ScanNumeral(t: seq<Char>, r: seq<Char>, p: Pos)
    requires IsNumeral(t)
    requires t == [] ==> r == [] || r[0] != '-'
    ensures ScanNumber(Cursor(t + r, p))
         == NumberLoop(Cursor(r, Walk(p, t)), t, Dots(t) > 0, p.line, p.chr)
  {
    if t != [] && t[0] == '-' {
      assert !NumeralBody(t) by { assert !(IsDigit(t[0]) || t[0] == '.'); }
      assert (t + r)[1..] == t[1..] + r;
      NumberLoopRun(t[1..], r, Count(p, '-'), ['-'], false, p.line, p.chr);
      assert t == ['-'] + t[1..];
      DotsAppend(['-'], t[1..]);
      WalkAppend(p, ['-'], t[1..]);
    } else {
      NumberLoopRun(t, r, p, [], false, p.line, p.chr);
      assert [] + t == t;
    }
  }

  /** A numeral at the end of input reads back as itself: FLOAT iff it holds a dot,
      INTEGER otherwise. */
  lemma NumberRoundTrip(t: seq<Char>, p: Pos)
    requires IsNumeral(t)
    ensures ScanNumber(Cursor(t, p)) == (Ok(Token.Number(t, Dots(t) > 0, p.line, p.chr)), Cursor([], Walk(p, t)))
  {
    assert t + [] == t;
    ScanNumeral(t, [], p);
    NumeralPlain(t);
    TrimPlain(t, []);
  }

  /** A numeral followed by whitespace reads back as itself; the whitespace is consumed
      and not kept. */
  lemma NumberThenWhitespace(t: seq<Char>, x: Char, r: seq<Char>, p: Pos)
    requires IsNumeral(t) && IsWhitespace(x)
    ensures ScanNumber(Cursor(t + [x] + r, p))
         == (Ok(Token.Number(t, Dots(t) > 0, p.line, p.chr)), Cursor(r, Walk(p, t + [x])))
  {
    var s := [x] + r;
    assert t + [x] + r == t + s;
    ScanNumeral(t, s, p);
    NumeralPlain(t);
    TrimPlain(t, [x]);
    var q := Walk(p, t);
    GetCons(x, r, q);
    assert NumberLoop(Cursor(s, q), t, Dots(t) > 0, p.line, p.chr)
        == (Ok(Token.Number(t, Dots(t) > 0, p.line, p.chr)), Cursor(r, Count(q, x)));
    WalkSnoc(p, t, x);
  }

  /** `next` on input starting with a digit, a minus sign or a dot is `number`. */
  lemma NextDispatchesNumber(c: Cursor)
    requires c.rest != [] && (IsDigit(c.rest[0]) || c.rest[0] == '-' || c.rest[0] == '.')
    ensures ScanNext(c) == ScanNumber(c)
  {
    var x := c.rest[0];
    assert !IsWhitespace(x);
    assert SkipWhitespace(c) == c;
    assert x != '(' && x != ')' && x != ';' && x != '"';
    assert ScanToken(c) == ScanNumber(c);
  }

  /** `next` reads a whole numeral at the end of input as one INTEGER or FLOAT. */
  lemma NextNumeral(t: seq<Char>, p: Pos)
    requires t != [] && (IsDigit(t[0]) || t[0] == '-' || t[0] == '.') && IsNumeral(t)
    ensures ScanNext(Cursor(t, p)).0 == Ok(Token.Number(t, Dots(t) > 0, p.line, p.chr))
  {
    NextDispatchesNumber(Cursor(t, p));
    NumberRoundTrip(t, p);
  }

  /** A dot after a numeral that already holds one is a FLOAT error whose text ends with
      that second dot. */
  lemma NumberSecondDot(t: seq<Char>, r: seq<Char>, p: Pos)
    requires IsNumeral(t) && Dots(t) == 1
    ensures ScanNumber(Cursor(t + ['.'] + r, p)).0 == Err(LexError.FLOAT(t + ['.'], p.line, p.chr))
  {
    assert t + ['.'] + r == t + (['.'] + r);
    ScanNumeral(t, ['.'] + r, p);
  }

  /** Any other character after a numeral is an INTEGER or FLOAT error (by whether a dot was
      seen) whose text runs through the offending character. */
  lemma NumberBadChar(t: seq<Char>, x: Char, r: seq<Char>, p: Pos)
    requires IsNumeral(t)
    requires !IsDigit(x) && x != '.' && !IsWhitespace(x)
    requires t == [] ==> x != '-'
    ensures ScanNumber(Cursor(t + [x] + r, p)).0 == Err(LexError.Number(t + [x], Dots(t) > 0, p.line, p.chr))
  {
    assert t + [x] + r == t + ([x] + r);
    ScanNumeral(t, [x] + r, p);
  }

  lemma {:induction false} NumberLoopSound(c: Cursor, acc: seq<Char>, isFloat: bool, line: nat, chr: nat)
    requires IsNumeral(acc) && (isFloat <==> Dots(acc) > 0)
    ensures var r := NumberLoop(c, acc, isFloat, line, chr).0;
      r.Ok? ==> IsNumeral(r.value.text) && (r.value.FLOAT? <==> Dots(r.value.text) > 0)
    decreases |c.rest|
  {
    NumeralPlain(acc);
    if c.rest != [] {
      var x := c.rest[0];
      var acc' := acc + [x];
      DotsAppend(acc, [x]);
      if IsDigit(x) || (x == '.' && !isFloat) {
        assert IsNumeral(acc') by {
          if NumeralBody(acc) {
            assert forall i | 0 <= i < |acc'| :: IsDigit(acc'[i]) || acc'[i] == '.' by {
              forall i | 0 <= i < |acc'| ensures IsDigit(acc'[i]) || acc'[i] == '.' {
                if i < |acc| { assert acc'[i] == acc[i]; }
              }
            }
          } else {
            assert acc'[1..] == acc[1..] + [x];
            DotsAppend(acc[1..], [x]);
            assert Dots(acc) == Dots(acc[1..]) by { assert acc[0] == '-'; }
            var b := acc'[1..];
            forall i | 0 <= i < |b| ensures IsDigit(b[i]) || b[i] == '.' {
              if i < |acc| - 1 { assert b[i] == acc[1..][i]; }
            }
          }
        }
        NumberLoopSound(Cursor(c.rest[1..], Count(c.pos, x)), acc', isFloat || x == '.', line, chr);
      } else if IsWhitespace(x) {
        TrimPlain(acc, [x]);
      }
    } else {
      TrimPlain(acc, []);
      assert acc + [] == acc;
    }
  }

  /** Every INTEGER or FLOAT token `number` returns is a numeral, and it is a FLOAT exactly
      when its text holds a dot. */
  lemma NumberSound(c: Cursor)
    ensures ScanNumber(c).0.Ok? ==>
      IsNumeral(ScanNumber(c).0.value.text) && (ScanNumber(c).0.value.FLOAT? <==> Dots(ScanNumber(c).0.value.text) > 0)
  {
    if Peek(c) == Some('-') {
      assert Dots(['-']) == 0;
      NumberLoopSound(Get(c).1, ['-'], false, c.pos.line, c.pos.chr);
    } else {
      NumberLoopSound(c, [], false, c.pos.line, c.pos.chr);
    }
  }

  // ---------------------------------------------------------------------------
  // Identifiers

  /** Text an identifier may hold: no disallowed character and no whitespace. */
  predicate IdentText(s: seq<Char>)
  {
    forall i | 0 <= i < |s| :: !IsIdentInvalid(s[i]) && !IsWhitespace(s[i])
  }

  lemma {:induction false} IdentLoopRun(t: seq<Char>, r: seq<Char>, p: Pos, acc: seq<Char>, line: nat, chr: nat)
    requires IdentText(t)
    ensures IdentLoop(Cursor(t + r, p), acc, line, chr) == IdentLoop(Cursor(r, Walk(p, t)), acc + t, line, chr)
    decreases |t|
  {
    if t == [] {
      assert t + r == r && acc + t == acc;
    } else {
      assert (t + r)[0] == t[0] && (t + r)[1..] == t[1..] + r;
      IdentLoopRun(t[1..], r, Count(p, t[0]), acc + [t[0]], line, chr);
      assert acc + [t[0]] + t[1..] == acc + t;
    }
  }

  /** An identifier at the end of input reads back as itself. */
  lemma IdentRoundTrip(t: seq<Char>, p: Pos)
    requires IdentText(t)
    ensures ScanIdent(Cursor(t, p)) == (Ok(Token.IDENT(t, p.line, p.chr)), Cursor([], Walk(p, t)))
  {
    assert t + [] == t && [] + t == t;
    IdentLoopRun(t, [], p, [], p.line, p.chr);
  }

  /** An identifier followed by whitespace reads back as itself; the whitespace is
      consumed and discarded. */
  lemma IdentThenWhitespace(t: seq<Char>, x: Char, r: seq<Char>, p: Pos)
    requires IdentText(t) && IsWhitespace(x)
    ensures ScanIdent(Cursor(t + [x] + r, p)) == (Ok(Token.IDENT(t, p.line, p.chr)), Cursor(r, Walk(p, t + [x])))
  {
    var s := [x] + r;
    assert t + [x] + r == t + s && [] + t == t;
    IdentLoopRun(t, s, p, [], p.line, p.chr);
    var q := Walk(p, t);
    GetCons(x, r, q);
    WhitespaceNotInvalid(x);
    assert IdentLoop(Cursor(s, q), t, p.line, p.chr) == (Ok(Token.IDENT(t, p.line, p.chr)), Cursor(r, Count(q, x)));
    WalkSnoc(p, t, x);
  }

  /** A disallowed character is consumed and fails with exactly the text before it. */
  lemma IdentRejects(t: seq<Char>, x: Char, r: seq<Char>, p: Pos)
    requires IdentText(t) && IsIdentInvalid(x)
    ensures ScanIdent(Cursor(t + [x] + r, p)) == (Err(LexError.IDENT(t, p.line, p.chr)), Cursor(r, Walk(p, t + [x])))
  {
    var s := [x] + r;
    assert t + [x] + r == t + s && [] + t == t;
    IdentLoopRun(t, s, p, [], p.line, p.chr);
    var q := Walk(p, t);
    GetCons(x, r, q);
    assert IdentLoop(Cursor(s, q), t, p.line, p.chr) == (Err(LexError.IDENT(t, p.line, p.chr)), Cursor(r, Count(q, x)));
    WalkSnoc(p, t, x);
  }

  lemma {:induction false} IdentLoopSound(c: Cursor, acc: seq<Char>, line: nat, chr: nat)
    requires IdentText(acc)
    ensures var r := IdentLoop(c, acc, line, chr).0;
      IdentText(if r.Ok? then r.value.text else r.error.text)
    decreases |c.rest|
  {
    if c.rest != [] {
      var x := c.rest[0];
      if !IsIdentInvalid(x) && !IsWhitespace(x) {
        var acc' := acc + [x];
        assert forall i | 0 <= i < |acc'| :: acc'[i] == if i < |acc| then acc[i] else x;
        IdentLoopSound(Cursor(c.rest[1..], Count(c.pos, x)), acc', line, chr);
      }
    }
  }

  /** Every identifier `ident` returns, and the partial text of every identifier error,
      holds no disallowed character and no whitespace. */
  lemma IdentSound(c: Cursor)
    ensures var r := ScanIdent(c).0;
      IdentText(if r.Ok? then r.value.text else r.error.text)
  {
    IdentLoopSound(c, [], c.pos.line, c.pos.chr);
  }

  /** A lookahead in the identifier range that is not whitespace makes `next` run `ident`
      from the current position. */
  lemma NextDispatchesIdent(c: Cursor)
    requires c.rest != [] && IsIdentStart(c.rest[0])
    ensures ScanNext(c) == ScanIdent(c)
  {
    assert !IsWhitespace(c.rest[0]);
    assert SkipWhitespace(c) == c;
    var x := c.rest[0];
    assert x != '(' && x != ')' && x != ';' && x != '"' && !IsDigit(x) && x != '-' && x != '.';
    assert ScanToken(c) == ScanIdent(c);
  }

  /** Through `next`: an identifier that contains a disallowed character fails with the
      text before that character, at the identifier's position. */
  lemma NextIdentRejects(t: seq<Char>, x: Char, r: seq<Char>, p: Pos)
    requires t != [] && IsIdentStart(t[0]) && IdentText(t) && IsIdentInvalid(x)
    ensures ScanNext(Cursor(t + [x] + r, p)).0 == Err(LexError.IDENT(t, p.line, p.chr))
  {
    var c := Cursor(t + [x] + r, p);
    assert c.rest[0] == t[0];
    NextDispatchesIdent(c);
    IdentRejects(t, x, r, p);
  }

  /** The identifier range 'A'..'z' also holds '[', '\' and ']', which are disallowed in an
      identifier: such a first character is consumed and fails at once with empty text. */
  lemma IdentStartQuirk(x: Char, r: seq<Char>, p: Pos)
    requires x == '[' || x == '\\' || x == ']'
    ensures IsIdentStart(x) && IsIdentInvalid(x)
    ensures ScanNext(Cursor([x] + r, p)) == (Err(LexError.IDENT([], p.line, p.chr)), Cursor(r, Count(p, x)))
  {
    var c := Cursor([x] + r, p);
    NextDispatchesIdent(c);
    assert c.rest[1..] == r;
  }

  // ---------------------------------------------------------------------------
  // Comments

  /** A comment runs to the line feed, which is consumed: the token holds the trimmed
      text and the source moves to column 1 of the next line. */
  lemma CommentLine(t: seq<Char>, r: seq<Char>, p: Pos)
    requires forall i | 0 <= i < |t| :: t[i] != '\n'
    ensures ScanComment(Cursor(t + ['\n'] + r, p))
         == (Ok(COMMENT(Trim(t), p.line, p.chr)), Cursor(r, Pos(p.line + 1, 1)))
  {
    var c := Cursor(t + ['\n'] + r, p);
    var (text, d) := CommentLoop(c, []);
    var n := |text|;
    assert c.rest[|t|] == '\n';
    assert text == t by { assert c.rest[..|t|] == t; }
    assert d.rest == r;
    CommentLoopAdvances(c, []);
    assert Consumed(c, d) == t + ['\n'];
    WalkSnoc(p, t, '\n');
    WalkColumn(p, t);
  }

  /** A comment at the end of input runs to the end; it never fails. */
  lemma CommentAtEnd(t: seq<Char>, p: Pos)
    requires forall i | 0 <= i < |t| :: t[i] != '\n'
    ensures ScanComment(Cursor(t, p)) == (Ok(COMMENT(Trim(t), p.line, p.chr)), Cursor([], Pos(p.line, p.chr + |t|)))
  {
    var c := Cursor(t, p);
    var (text, d) := CommentLoop(c, []);
    assert text == t by { assert c.rest[..|t|] == t; }
    CommentLoopAdvances(c, []);
    assert Consumed(c, d) == t;
    WalkColumn(p, t);
  }

  // ---------------------------------------------------------------------------
  // The single-character tokens, strings and comments through `next`

  /** `next` on input starting with `(` returns LPAR at the start and consumes the parenthesis. */
  lemma NextLPar(r: seq<Char>, p: Pos)
    ensures ScanNext(Cursor(['('] + r, p)) == (Ok(LPAR(p.line, p.chr)), Cursor(r, Count(p, '(')))
  {
    var c := Cursor(['('] + r, p);
    assert !IsWhitespace('(');
    assert SkipWhitespace(c) == c;
    GetCons('(', r, p);
  }

  /** `next` on input starting with `)` returns RPAR at the start and consumes the parenthesis. */
  lemma NextRPar(r: seq<Char>, p: Pos)
    ensures ScanNext(Cursor([')'] + r, p)) == (Ok(RPAR(p.line, p.chr)), Cursor(r, Count(p, ')')))
  {
    var c := Cursor([')'] + r, p);
    assert !IsWhitespace(')');
    assert SkipWhitespace(c) == c;
    GetCons(')', r, p);
  }

  /** `next` on input starting with a quote is `string`. */
  lemma NextDispatchesString(c: Cursor)
    requires c.rest != [] && c.rest[0] == '"'
    ensures ScanNext(c) == ScanString(c)
  {
    assert !IsWhitespace('"');
    assert SkipWhitespace(c) == c;
    assert ScanToken(c) == ScanString(c);
  }

  /** `next` on input starting with a semicolon is `comment`. */
  lemma NextDispatchesComment(c: Cursor)
    requires c.rest != [] && c.rest[0] == ';'
    ensures ScanNext(c) == ScanComment(c)
  {
    var x := c.rest[0];
    assert !IsWhitespace(x);
    assert SkipWhitespace(c) == c;
    assert x != '(' && x != ')';
    assert ScanToken(c) == ScanComment(c);
  }

  /** Through `next`: a quote, an escaped text and a quote read back as STRING of that
      text at the opening quote, and exactly the literal is consumed. */
  lemma NextString(t: seq<Char>, r: seq<Char>, p: Pos)
    ensures var lit := ['"'] + Escape(t) + ['"'];
      ScanNext(Cursor(lit + r, p)) == (Ok(STRING(t, p.line, p.chr)), Cursor(r, Walk(p, lit)))
  {
    var lit := ['"'] + Escape(t) + ['"'];
    assert (lit + r)[0] == '"';
    NextDispatchesString(Cursor(lit + r, p));
    StringRoundTrip(t, r, p);
  }

  /** Through `next`, after any run of whitespace: a literal cut by the end of input, a
      trailing backslash or a raw line feed is UNTERMINATED with the text so far, at the
      position of the opening quote. */
  lemma NextUnterminated(w: seq<Char>, t: seq<Char>, tail: seq<Char>, p: Pos)
    requires forall i | 0 <= i < |w| :: IsWhitespace(w[i])
    requires tail == [] || tail == ['\\'] || (tail != [] && tail[0] == '\n')
    ensures var q := Walk(p, w);
      ScanNext(Cursor(w + (['"'] + Escape(t) + tail), p)).0 == Err(UNTERMINATED(t, q.line, q.chr))
  {
    var lit := ['"'] + Escape(t) + tail;
    var q := Walk(p, w);
    assert lit[0] == '"';
    SkipWhitespaceRun(w, lit, p);
    NextDispatchesString(Cursor(lit, q));
    StringUnterminated(t, tail, q);
  }

  /** Through `next`: a comment running to the end of input is COMMENT of its trimmed
      text, semicolon included, at its start. */
  lemma NextComment(t: seq<Char>, p: Pos)
    requires t != [] && t[0] == ';'
    requires forall i | 0 <= i < |t| :: t[i] != '\n'
    ensures ScanNext(Cursor(t, p)).0 == Ok(COMMENT(Trim(t), p.line, p.chr))
  {
    NextDispatchesComment(Cursor(t, p));
    CommentAtEnd(t, p);
  }
}
