/** The two character sources are interchangeable: a StringLexer over a text and an
    IOLexer over a stream that delivers the same text one byte per read start in the
    same state, and `get` and `next` keep them in step. */
module Agreement {
  import opened Wrappers
  import opened Chars
  import opened Position
  import opened Tokens
  import StringLexer
  import IoLexer
  import Lexer

  /** Both sources built over `text`, the stream ending with `Ok(0)`, a read error or
      nothing more, hold `text` at line 1, column 1. */
  method NewInStep(text: seq<Char>, tail: seq<IoLexer.ReadOutcome>)
      returns (a: StringLexer.StringLexer, b: IoLexer.IOLexer)
    requires tail == [] || !tail[0].Byte?
    ensures a.Valid() && b.Valid()
    ensures a.Cur() == b.Cur() == Cursor(text, Start)
  {
    a := new StringLexer.StringLexer(text);
    IoLexer.DeliveredBytes(text, tail);
    b := new IoLexer.IOLexer(IoLexer.Bytes(text) + tail);
  }

  /** From the same state, `get` returns the same character from both sources and
      leaves them in the same state. */
  method GetInStep(a: StringLexer.StringLexer, b: IoLexer.IOLexer) returns (x: Option<Char>, y: Option<Char>)
    requires a.Valid() && b.Valid() && a.Cur() == b.Cur()
    modifies a, b
    ensures a.Valid() && b.Valid()
    ensures x == y && a.Cur() == b.Cur() && (x, a.Cur()) == Position.Get(old(a.Cur()))
  {
    x := a.Get();
    y := b.Get();
  }

  /** From the same state, `next` returns the same token or error from both sources and
      leaves them in the same state. */
  method NextInStep(a: StringLexer.StringLexer, b: IoLexer.IOLexer) returns (x: Lexed, y: Lexed)
    requires a.Valid() && b.Valid() && a.Cur() == b.Cur()
    modifies a, b
    ensures a.Valid() && b.Valid()
    ensures x == y && a.Cur() == b.Cur()
  {
    x := Lexer.Next(Lexer.Buffer(a));
    y := Lexer.Next(Lexer.Stream(b));
  }
}
