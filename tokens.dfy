/** The tokens and lexical errors of the tokenizer (src/lexer/lexer.rs). Each carries
    the 1-indexed (line, column) of its first character. */
module Tokens {
  import opened Wrappers
  import opened Chars
  import opened Position

  datatype Token =
    | LPAR(line: nat, chr: nat)
    | RPAR(line: nat, chr: nat)
    | COMMENT(text: seq<Char>, line: nat, chr: nat)
    | STRING(text: seq<Char>, line: nat, chr: nat)
    | INTEGER(text: seq<Char>, line: nat, chr: nat)
    | FLOAT(text: seq<Char>, line: nat, chr: nat)
    | IDENT(text: seq<Char>, line: nat, chr: nat)
  {
    /** `Token::number`: a float token when a dot was seen, an integer token otherwise. */
    static function Number(text: seq<Char>, isFloat: bool, line: nat, chr: nat): (t: Token)
      ensures t.FLOAT? <==> isFloat
      ensures t.INTEGER? <==> !isFloat
      ensures t.text == text && t.line == line && t.chr == chr
    {
      if isFloat then Token.FLOAT(text, line, chr) else Token.INTEGER(text, line, chr)
    }
  }

  datatype LexError =
    | INVALID(c: Char, line: nat, chr: nat)
    | UNTERMINATED(text: seq<Char>, line: nat, chr: nat)
    | IDENT(text: seq<Char>, line: nat, chr: nat)
    | INTEGER(text: seq<Char>, line: nat, chr: nat)
    | FLOAT(text: seq<Char>, line: nat, chr: nat)
    | END(line: nat, chr: nat)
  {
    /** `LexError::number`: a float error when a dot was seen, an integer error otherwise. */
    static function Number(text: seq<Char>, isFloat: bool, line: nat, chr: nat): (e: LexError)
      ensures e.FLOAT? <==> isFloat
      ensures e.INTEGER? <==> !isFloat
      ensures e.text == text && e.line == line && e.chr == chr
    {
      if isFloat then LexError.FLOAT(text, line, chr) else LexError.INTEGER(text, line, chr)
    }
  }

  type Lexed = Result<Token, LexError>

  /** The position a token or an error carries. */
  function PosOf(r: Lexed): Pos
  {
    match r
    case Ok(t) => Pos(t.line, t.chr)
    case Err(e) => Pos(e.line, e.chr)
  }
}
