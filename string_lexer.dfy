/** `StringLexer` (src/lexer/string_lexer.rs): a character source over an in-memory byte buffer. */
module StringLexer {
  import opened Wrappers
  import opened Chars
  import opened Position

  class StringLexer {
    const input: seq<Char>
    var index: nat
    var line: nat
    var chr: nat

    /** The index never passes the end of the buffer. */
    ghost predicate Valid()
      reads this
    {
      index <= |input|
    }

    /** What remains to be delivered, and the current position. */
    ghost function Cur(): Cursor
      reads this
      requires Valid()
    {
      Cursor(input[index..], Pos(line, chr))
    }

    constructor (input: seq<Char>)
      ensures Valid()
      ensures this.input == input && index == 0 && line == 1 && chr == 1
      ensures Cur() == Cursor(input, Start)
    {
      this.input := input;
      index, line, chr := 0, 1, 1;
    }

    /** The byte at the index, if the end has not been reached; reading it changes nothing. */
    function Peek(): (r: Option<Char>)
      reads this
      requires Valid()
      ensures r.Some? <==> index < |input|
      ensures r.Some? ==> r.value == input[index]
      ensures r == Position.Peek(Cur())
    {
      if index < |input| then Some(input[index]) else None
    }

    /** Consume the lookahead: move the index by one and apply `count`; at the end of
        the buffer return None and change nothing. */
    method Get() returns (c: Option<Char>)
      requires Valid()
      modifies this
      ensures Valid()
      ensures (c, Cur()) == Position.Get(old(Cur()))
      ensures c == old(Peek())
      ensures c.Some? ==> index == old(index) + 1
      ensures c.None? ==> index == old(index) && line == old(line) && chr == old(chr)
    {
      c := Peek();
      match c {
        case Some(x) =>
          index := index + 1;
          Count(x);
        case None =>
      }
    }

    /** `count` (the trait's default method) on this source: a line feed sets the line
        one down and the column to 1; any other character sets only the column, one right. */
    method Count(c: Char)
      modifies this
      ensures Pos(line, chr) == Position.Count(old(Pos(line, chr)), c)
      ensures index == old(index)
    {
      var line := Line();
      var chr := Chr();
      if c == '\n' {
        SetLine(line + 1);
        SetChr(1);
      } else {
        SetChr(chr + 1);
      }
    }

    method SetLine(n: nat)
      modifies this
      ensures Line() == n
      ensures index == old(index) && chr == old(chr)
    {
      line := n;
    }

    method SetChr(n: nat)
      modifies this
      ensures Chr() == n
      ensures index == old(index) && line == old(line)
    {
      chr := n;
    }

    function Line(): nat
      reads this
    {
      line
    }

    function Chr(): nat
      reads this
    {
      chr
    }
  }

  /** The `new` and `peek` tests of string_lexer.rs over "ab\ncd": `new` starts at (1, 1);
      `peek` shows the next byte without consuming it or moving the position, before and
      after one `get`. The result lists what each `peek` returned, with the line and column
      at that point. */
  method PeekSequence() returns (trace: seq<(Option<Char>, nat, nat)>)
    ensures trace == [(Some('a'), 1, 1), (Some('a'), 1, 1), (Some('b'), 1, 2), (Some('b'), 1, 2)]
  {
    var lexer := new StringLexer("ab\ncd");
    var c := lexer.Peek();
    trace := [(c, lexer.Line(), lexer.Chr())];
    c := lexer.Peek();
    trace := trace + [(c, lexer.Line(), lexer.Chr())];
    var _ := GetThenPosition(lexer);
    c := lexer.Peek();
    trace := trace + [(c, lexer.Line(), lexer.Chr())];
    c := lexer.Peek();
    trace := trace + [(c, lexer.Line(), lexer.Chr())];
  }

  /** One step of the `get` test: call `get`, then read the line and column. Stated on the
      fields alone: before the end, the byte at the index is returned, the index moves by
      one and `count` is applied; at the end, None and nothing changes. */
  method GetThenPosition(lexer: StringLexer) returns (entry: (Option<Char>, nat, nat))
    requires lexer.Valid()
    modifies lexer
    ensures lexer.Valid()
    ensures old(lexer.index) == |lexer.input| ==>
              && entry == (None, lexer.line, lexer.chr)
              && lexer.index == old(lexer.index)
              && lexer.line == old(lexer.line) && lexer.chr == old(lexer.chr)
    ensures old(lexer.index) < |lexer.input| ==>
              var x := lexer.input[old(lexer.index)];
              var p := Position.Count(old(Pos(lexer.line, lexer.chr)), x);
              && entry == (Some(x), p.line, p.chr) && Pos(lexer.line, lexer.chr) == p
              && lexer.index == old(lexer.index) + 1
  {
    var c := lexer.Get();
    entry := (c, lexer.Line(), lexer.Chr());
  }

  /** The `get` test of string_lexer.rs over "ab\ncd": each `get` returns the next byte and
      moves the position by `count`, and at the end returns None. The trace records what
      each `get` returned, with the line and column after it. */
  method GetSequence() returns (trace: seq<(Option<Char>, nat, nat)>)
    ensures trace == [(Some('a'), 1, 2), (Some('b'), 1, 3), (Some('\n'), 2, 1),
                     (Some('c'), 2, 2), (Some('d'), 2, 3), (None, 2, 3)]
  {
    var text: seq<Char> := "ab\ncd";
    assert text[0] == 'a' && text[1] == 'b' && text[2] == '\n';
    assert text[3] == 'c' && text[4] == 'd' && |text| == 5;
    var lexer := new StringLexer(text);
    var e1 := GetThenPosition(lexer);
    var e2 := GetThenPosition(lexer);
    var e3 := GetThenPosition(lexer);
    var e4 := GetThenPosition(lexer);
    var e5 := GetThenPosition(lexer);
    var e6 := GetThenPosition(lexer);
    trace := [e1, e2, e3, e4, e5, e6];
  }

  /** The `line`, `set_line`, `chr` and `set_chr` tests of string_lexer.rs: a new lexer
      reports (1, 1); after setting both to 43 it reports (43, 43). */
  method SetPosition() returns (before: (nat, nat), after: (nat, nat))
    ensures before == (1, 1) && after == (43, 43)
  {
    var lexer := new StringLexer("ab\ncd");
    before := (lexer.Line(), lexer.Chr());
    lexer.SetLine(43);
    lexer.SetChr(43);
    after := (lexer.Line(), lexer.Chr());
  }
}
