/** The default methods of the `Lexer` trait (src/lexer/lexer.rs), run over either
    character source. Each method is proved to compute the function of module Scanner
    that has the same shape, from the source's state before the call. */
module Lexer {
  import opened Wrappers
  import opened Chars
  import opened Position
  import opened Tokens
  import opened Scanner
  import StringLexer
  import IoLexer

  /** An implementor of the trait: the buffer source or the streaming source. */
  datatype Source = Buffer(b: StringLexer.StringLexer) | Stream(s: IoLexer.IOLexer)
  {
    ghost function Obj(): object
    {
      match this
      case Buffer(b) => b
      case Stream(s) => s
    }

    ghost predicate Valid()
      reads Obj()
    {
      match this
      case Buffer(b) => b.Valid()
      case Stream(s) => s.Valid()
    }

    ghost function Cur(): Cursor
      reads Obj()
      requires Valid()
    {
      match this
      case Buffer(b) => b.Cur()
      case Stream(s) => s.Cur()
    }

    function Peek(): (r: Option<Char>)
      reads Obj()
      requires Valid()
      ensures r == Position.Peek(Cur())
    {
      match this
      case Buffer(b) => b.Peek()
      case Stream(s) => s.Peek()
    }

    function Line(): (n: nat)
      reads Obj()
      requires Valid()
      ensures n == Cur().pos.line
    {
      match this
      case Buffer(b) => b.Line()
      case Stream(s) => s.Line()
    }

    function Chr(): (n: nat)
      reads Obj()
      requires Valid()
      ensures n == Cur().pos.chr
    {
      match this
      case Buffer(b) => b.Chr()
      case Stream(s) => s.Chr()
    }

    method Get() returns (c: Option<Char>)
      requires Valid()
      modifies Obj()
      ensures Valid()
      ensures (c, Cur()) == Position.Get(old(Cur()))
    {
      match this
      case Buffer(b) => c := b.Get();
      case Stream(s) => c := s.Get();
    }
  }

  /** `next`. */
  method Next(src: Source) returns (r: Lexed)
    requires src.Valid()
    modifies src.Obj()
    ensures src.Valid()
    ensures (r, src.Cur()) == ScanNext(old(src.Cur()))
  {
    ConsumeWhitespace(src);
    match src.Peek() {
      case None => r := Err(END(src.Line(), src.Chr()));
      case Some(_) => r := ReadToken(src);
    }
  }

  /** `read_token`. */
  method ReadToken(src: Source) returns (r: Lexed)
    requires src.Valid()
    modifies src.Obj()
    ensures src.Valid()
    ensures (r, src.Cur()) == ScanToken(old(src.Cur()))
  {
    match src.Peek() {
      case None => r := Err(END(src.Line(), src.Chr()));
      case Some(x) =>
        if x == '(' {
          r := LPar(src);
        } else if x == ')' {
          r := RPar(src);
        } else if x == ';' {
          r := Comment(src);
        } else if x == '"' {
          r := String(src);
        } else if IsDigit(x) || x == '-' || x == '.' {
          r := Number(src);
        } else if IsIdentStart(x) {
          r := Ident(src);
        } else {
          r := Err(INVALID(x, src.Line(), src.Chr()));
        }
    }
  }

  /** `consume_whitespace`. */
  method ConsumeWhitespace(src: Source)
    requires src.Valid()
    modifies src.Obj()
    ensures src.Valid()
    ensures src.Cur() == SkipWhitespace(old(src.Cur()))
  {
    while src.Peek().Some? && IsWhitespace(src.Peek().value)
      invariant src.Valid()
      invariant SkipWhitespace(src.Cur()) == SkipWhitespace(old(src.Cur()))
      decreases |src.Cur().rest|
    {
      var _ := src.Get();
    }
  }

  /** `lpar`. */
  method LPar(src: Source) returns (r: Lexed)
    requires src.Valid()
    modifies src.Obj()
    ensures src.Valid()
    ensures (r, src.Cur()) == ScanLPar(old(src.Cur()))
  {
    var line := src.Line();
    var chr := src.Chr();
    var _ := src.Get();
    r := Ok(LPAR(line, chr));
  }

  /** `rpar`. */
  method RPar(src: Source) returns (r: Lexed)
    requires src.Valid()
    modifies src.Obj()
    ensures src.Valid()
    ensures (r, src.Cur()) == ScanRPar(old(src.Cur()))
  {
    var line := src.Line();
    var chr := src.Chr();
    var _ := src.Get();
    r := Ok(RPAR(line, chr));
  }

  /** `comment`. */
  method Comment(src: Source) returns (r: Lexed)
    requires src.Valid()
    modifies src.Obj()
    ensures src.Valid()
    ensures (r, src.Cur()) == ScanComment(old(src.Cur()))
  {
    var line := src.Line();
    var chr := src.Chr();
    var comment: seq<Char> := [];
    while true
      invariant src.Valid()
      invariant CommentLoop(src.Cur(), comment) == CommentLoop(old(src.Cur()), [])
      decreases |src.Cur().rest|
    {
      ghost var before := src.Cur();
      var c := src.Get();
      match c {
        case None =>
          assert CommentLoop(before, comment) == (comment, src.Cur());
          break;
        case Some(x) =>
          if x != '\n' {
            comment := comment + [x];
          } else {
            assert CommentLoop(before, comment) == (comment, src.Cur());
            break;
          }
      }
    }
    r := Ok(COMMENT(Trim(comment), line, chr));
  }

  /** `string`. */
  method String(src: Source) returns (r: Lexed)
    requires src.Valid()
    modifies src.Obj()
    ensures src.Valid()
    ensures (r, src.Cur()) == ScanString(old(src.Cur()))
  {
    var text: seq<Char> := [];
    var line := src.Line();
    var chr := src.Chr();
    var _ := src.Get();
    ghost var start := src.Cur();
    while true
      invariant src.Valid()
      invariant StringLoop(src.Cur(), text, line, chr) == StringLoop(start, [], line, chr)
      decreases |src.Cur().rest|
    {
      ghost var before, textBefore := src.Cur(), text;
      var c := src.Get();
      match c {
        case None =>
          assert StringLoop(before, text, line, chr) == (Err(UNTERMINATED(text, line, chr)), src.Cur());
          break;
        case Some(x) =>
          if x == '\\' {
            var next := src.Get();
            match next {
              case Some(y) =>
                text := text + [y];
              case None =>
                assert StringLoop(before, text, line, chr) == (Err(UNTERMINATED(text, line, chr)), src.Cur());
                break;
            }
          } else if x == '\n' {
            assert StringLoop(before, text, line, chr) == (Err(UNTERMINATED(text, line, chr)), src.Cur());
            break;
          } else if x == '"' {
            r := Ok(STRING(text, line, chr));
            assert StringLoop(before, text, line, chr) == (r, src.Cur());
            return;
          } else {
            text := text + [x];
          }
      }
      assert StringLoop(before, textBefore, line, chr) == StringLoop(src.Cur(), text, line, chr);
    }
    r := Err(UNTERMINATED(text, line, chr));
  }

  /** `number`. */
  method Number(src: Source) returns (r: Lexed)
    requires src.Valid()
    modifies src.Obj()
    ensures src.Valid()
    ensures (r, src.Cur()) == ScanNumber(old(src.Cur()))
  {
    var number: seq<Char> := [];
    var line := src.Line();
    var chr := src.Chr();
    var isFloat := false;
    ghost var c0 := src.Cur();
    assert c0 == old(src.Cur());
    if src.Peek() == Some('-') {
      number := number + ['-'];
      var _ := src.Get();
      assert src.Cur() == Position.Get(c0).1;
      assert number == ['-'];
    }
    ghost var start, sign := src.Cur(), number;
    assert ScanNumber(c0) == NumberLoop(start, sign, false, line, chr);
    while true
      invariant src.Valid()
      invariant NumberLoop(src.Cur(), number, isFloat, line, chr) == NumberLoop(start, sign, false, line, chr)
      decreases |src.Cur().rest|
    {
      ghost var before, numberBefore, floatBefore := src.Cur(), number, isFloat;
      var c := src.Get();
      match c {
        case None =>
          assert NumberLoop(before, number, isFloat, line, chr)
              == (Ok(Token.Number(Trim(number), isFloat, line, chr)), src.Cur());
          break;
        case Some(x) =>
          number := number + [x];
          if IsDigit(x) {
          } else if x == '.' {
            if isFloat {
              r := Err(LexError.FLOAT(number, line, chr));
              assert NumberLoop(before, numberBefore, floatBefore, line, chr) == (r, src.Cur());
              return;
            } else {
              isFloat := true;
            }
          } else if IsWhitespace(x) {
            assert NumberLoop(before, numberBefore, floatBefore, line, chr)
                == (Ok(Token.Number(Trim(number), isFloat, line, chr)), src.Cur());
            break;
          } else {
            r := Err(LexError.Number(number, isFloat, line, chr));
            assert NumberLoop(before, numberBefore, floatBefore, line, chr) == (r, src.Cur());
            return;
          }
      }
      assert NumberLoop(before, numberBefore, floatBefore, line, chr)
          == NumberLoop(src.Cur(), number, isFloat, line, chr);
    }
    r := Ok(Token.Number(Trim(number), isFloat, line, chr));
  }

  /** `ident`. */
  method Ident(src: Source) returns (r: Lexed)
    requires src.Valid()
    modifies src.Obj()
    ensures src.Valid()
    ensures (r, src.Cur()) == ScanIdent(old(src.Cur()))
  {
    var line := src.Line();
    var chr := src.Chr();
    var ident: seq<Char> := [];
    while true
      invariant src.Valid()
      invariant IdentLoop(src.Cur(), ident, line, chr) == IdentLoop(old(src.Cur()), [], line, chr)
      decreases |src.Cur().rest|
    {
      ghost var before := src.Cur();
      var c := src.Get();
      match c {
        case None =>
          assert IdentLoop(before, ident, line, chr) == (Ok(Token.IDENT(ident, line, chr)), src.Cur());
          break;
        case Some(x) =>
          if IsIdentInvalid(x) {
            r := Err(LexError.IDENT(ident, line, chr));
            assert IdentLoop(before, ident, line, chr) == (r, src.Cur());
            return;
          } else if IsWhitespace(x) {
            assert IdentLoop(before, ident, line, chr) == (Ok(Token.IDENT(ident, line, chr)), src.Cur());
            break;
          } else {
            ident := ident + [x];
          }
      }
    }
    r := Ok(Token.IDENT(ident, line, chr));
  }
}
