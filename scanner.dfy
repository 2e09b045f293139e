/** The tokenizer as pure functions over the abstract state of a character source.
    Each function follows one default method of the `Lexer` trait branch for branch;
    the methods in module Lexer are proved to compute exactly these functions. */
module Scanner {
  import opened Wrappers
  import opened Chars
  import opened Position
  import opened Tokens

  /** What a scanner returns, with the source state it leaves behind. */
  type Scanned = (Lexed, Cursor)

  /** `consume_whitespace`: consume characters while the lookahead is whitespace. */
  function SkipWhitespace(c: Cursor): (d: Cursor)
    ensures |d.rest| <= |c.rest| && d.rest == c.rest[|c.rest| - |d.rest|..]
    ensures forall i | 0 <= i < |c.rest| - |d.rest| :: IsWhitespace(c.rest[i])
    ensures d.rest == [] || !IsWhitespace(d.rest[0])
    decreases |c.rest|
  {
    if c.rest != [] && IsWhitespace(c.rest[0]) then
      var d := Cursor(c.rest[1..], Count(c.pos, c.rest[0]));
      assert Get(c).1 == d;
      var e := SkipWhitespace(d);
      assert forall i | 1 <= i < |c.rest| - |e.rest| :: c.rest[i] == d.rest[i - 1];
      e
    else c
  }

  /** `next`: skip whitespace; END at end of input, otherwise one token or error. */
  function ScanNext(c: Cursor): Scanned
  {
    var d := SkipWhitespace(c);
    match Peek(d)
    case None => (Err(END(d.pos.line, d.pos.chr)), d)
    case Some(_) => ScanToken(d)
  }

  /** `read_token`: dispatch on the unconsumed lookahead character. */
  function ScanToken(c: Cursor): Scanned
  {
    match Peek(c)
    case None => (Err(END(c.pos.line, c.pos.chr)), c)
    case Some(x) =>
      if x == '(' then ScanLPar(c)
      else if x == ')' then ScanRPar(c)
      else if x == ';' then ScanComment(c)
      else if x == '"' then ScanString(c)
      else if IsDigit(x) || x == '-' || x == '.' then ScanNumber(c)
      else if IsIdentStart(x) then ScanIdent(c)
      else (Err(INVALID(x, c.pos.line, c.pos.chr)), c)
  }

  /** `lpar`: consume one character. */
  function ScanLPar(c: Cursor): Scanned
  {
    (Ok(LPAR(c.pos.line, c.pos.chr)), Get(c).1)
  }

  /** `rpar`: consume one character. */
  function ScanRPar(c: Cursor): Scanned
  {
    (Ok(RPAR(c.pos.line, c.pos.chr)), Get(c).1)
  }

  /** `comment`: the trimmed text up to the first line feed, which is consumed. */
  function ScanComment(c: Cursor): Scanned
  {
    var (text, d) := CommentLoop(c, []);
    (Ok(COMMENT(Trim(text), c.pos.line, c.pos.chr)), d)
  }

  /** The loop of `comment`: `acc` is the text pushed so far. The result is `acc`
      followed by the characters before the first line feed (or the end of input);
      the line feed is consumed and not kept. */
  function CommentLoop(c: Cursor, acc: seq<Char>): (r: (seq<Char>, Cursor))
    ensures var n := |r.0| - |acc|;
      && |acc| <= |r.0| && n <= |c.rest|
      && r.0 == acc + c.rest[..n]
      && (forall i | 0 <= i < n :: c.rest[i] != '\n')
      && (if n == |c.rest| then r.1.rest == [] else c.rest[n] == '\n' && r.1.rest == c.rest[n + 1..])
    decreases |c.rest|
  {
    var (o, d) := Get(c);
    match o
    case None => (acc, d)
    case Some(x) =>
      if x != '\n' then
        assert x == c.rest[0] && d.rest == c.rest[1..];
        var r := CommentLoop(d, acc + [x]);
        var n := |r.0| - |acc|;
        assert forall i | 1 <= i < n :: c.rest[i] == d.rest[i - 1];
        assert r.0 == acc + c.rest[..n];
        assert n < |c.rest| ==> c.rest[n] == d.rest[n - 1] && c.rest[n + 1..] == d.rest[n..];
        r
      else (acc, d)
  }

  /** `string`: consume the opening quote, then scan the body. */
  function ScanString(c: Cursor): Scanned
  {
    StringLoop(Get(c).1, [], c.pos.line, c.pos.chr)
  }

  /** The loop of `string`: a backslash takes the next character verbatim, a quote
      ends the literal, a raw line feed or the end of input leaves it unterminated. */
  function StringLoop(c: Cursor, acc: seq<Char>, line: nat, chr: nat): (r: Scanned)
    ensures PosOf(r.0) == Pos(line, chr)
    ensures r.0.Ok? ==> r.0.value.STRING?
    ensures r.0.Err? ==> r.0.error.UNTERMINATED?
    decreases |c.rest|
  {
    var (o, d) := Get(c);
    match o
    case None => (Err(UNTERMINATED(acc, line, chr)), d)
    case Some(x) =>
      if x == '\\' then
        (var (o2, d2) := Get(d);
         match o2
         case None => (Err(UNTERMINATED(acc, line, chr)), d2)
         case Some(y) => StringLoop(d2, acc + [y], line, chr))
      else if x == '\n' then (Err(UNTERMINATED(acc, line, chr)), d)
      else if x == '"' then (Ok(STRING(acc, line, chr)), d)
      else StringLoop(d, acc + [x], line, chr)
  }

  /** `number`: a leading minus sign is consumed and kept, then the body is scanned. */
  function ScanNumber(c: Cursor): Scanned
  {
    if Peek(c) == Some('-') then NumberLoop(Get(c).1, ['-'], false, c.pos.line, c.pos.chr)
    else NumberLoop(c, [], false, c.pos.line, c.pos.chr)
  }

  /** The loop of `number`: every consumed character is pushed first; digits continue,
      a first dot marks the number as a float, a second dot is a float error, whitespace
      or the end of input ends the token, anything else is an integer or float error. */
  function NumberLoop(c: Cursor, acc: seq<Char>, isFloat: bool, line: nat, chr: nat): (r: Scanned)
    ensures PosOf(r.0) == Pos(line, chr)
    ensures r.0.Ok? ==> r.0.value.INTEGER? || r.0.value.FLOAT?
    ensures r.0.Err? ==> r.0.error.INTEGER? || r.0.error.FLOAT?
    decreases |c.rest|
  {
    var (o, d) := Get(c);
    match o
    case None => (Ok(Token.Number(Trim(acc), isFloat, line, chr)), d)
    case Some(x) =>
      var acc' := acc + [x];
      if IsDigit(x) then NumberLoop(d, acc', isFloat, line, chr)
      else if x == '.' then
        (if isFloat then (Err(LexError.FLOAT(acc', line, chr)), d)
         else NumberLoop(d, acc', true, line, chr))
      else if IsWhitespace(x) then (Ok(Token.Number(Trim(acc'), isFloat, line, chr)), d)
      else (Err(LexError.Number(acc', isFloat, line, chr)), d)
  }

  /** `ident`: the whole identifier, including its first character, is scanned by the loop. */
  function ScanIdent(c: Cursor): Scanned
  {
    IdentLoop(c, [], c.pos.line, c.pos.chr)
  }

  /** The loop of `ident`: a disallowed character is consumed and fails with the text
      before it, whitespace (consumed) or the end of input ends the identifier. */
  function IdentLoop(c: Cursor, acc: seq<Char>, line: nat, chr: nat): (r: Scanned)
    ensures PosOf(r.0) == Pos(line, chr)
    ensures r.0.Ok? ==> r.0.value.IDENT?
    ensures r.0.Err? ==> r.0.error.IDENT?
    decreases |c.rest|
  {
    var (o, d) := Get(c);
    match o
    case None => (Ok(Token.IDENT(acc, line, chr)), d)
    case Some(x) =>
      if IsIdentInvalid(x) then (Err(LexError.IDENT(acc, line, chr)), d)
      else if IsWhitespace(x) then (Ok(Token.IDENT(acc, line, chr)), d)
      else IdentLoop(d, acc + [x], line, chr)
  }
}
