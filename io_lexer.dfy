/** `IOLexer` (src/lexer/io_lexer.rs): a character source over an incremental byte
    input with one byte of lookahead. The `Read` input is abstracted as the sequence
    of outcomes its successive one-byte reads produce. */
module IoLexer {
  import opened Wrappers
  import opened Chars
  import opened Position

  /** The outcome of one `read` into a one-byte buffer: `Ok(1)` with the byte read,
      `Ok(0)`, or `Err(_)`. */
  datatype ReadOutcome = Byte(b: Char) | Zero | Failure

  /** The bytes a sequence of reads delivers: those before the first outcome that is not a byte. */
  function Delivered(outcomes: seq<ReadOutcome>): (s: seq<Char>)
    ensures |s| <= |outcomes|
    ensures forall i | 0 <= i < |s| :: outcomes[i] == Byte(s[i])
    ensures |s| == |outcomes| || !outcomes[|s|].Byte?
  {
    if outcomes == [] || !outcomes[0].Byte? then [] else [outcomes[0].b] + Delivered(outcomes[1..])
  }

  /** A stream that delivers `s` one byte per read. */
  function Bytes(s: seq<Char>): (outcomes: seq<ReadOutcome>)
    ensures |outcomes| == |s|
    ensures forall i | 0 <= i < |s| :: outcomes[i] == Byte(s[i])
  {
    seq(|s|, i requires 0 <= i < |s| => Byte(s[i]))
  }

  /** A stream delivering the bytes of `s` one per read delivers exactly `s`,
      whatever outcome follows them. */
  lemma {:induction false} DeliveredBytes(s: seq<Char>, tail: seq<ReadOutcome>)
    requires tail == [] || !tail[0].Byte?
    ensures Delivered(Bytes(s) + tail) == s
    decreases |s|
  {
    if s == [] {
      assert Bytes(s) + tail == tail;
    } else {
      assert (Bytes(s) + tail)[1..] == Bytes(s[1..]) + tail;
      DeliveredBytes(s[1..], tail);
    }
  }

  /** A read error and a zero-byte read end the stream alike. */
  lemma ErrorLikeZero(pre: seq<Char>, post1: seq<ReadOutcome>, post2: seq<ReadOutcome>)
    ensures Delivered(Bytes(pre) + [Failure] + post1) == Delivered(Bytes(pre) + [Zero] + post2) == pre
  {
    assert Bytes(pre) + [Failure] + post1 == Bytes(pre) + ([Failure] + post1);
    assert Bytes(pre) + [Zero] + post2 == Bytes(pre) + ([Zero] + post2);
    DeliveredBytes(pre, [Failure] + post1);
    DeliveredBytes(pre, [Zero] + post2);
  }

  class IOLexer {
    /** The outcomes of the successive reads the input will produce. */
    const input: seq<ReadOutcome>
    /** How many reads have been performed. */
    var readCount: nat
    var buf: Char
    var eof: bool
    var line: nat
    var chr: nat

    /** While the end has not been seen, the reads performed stay within the script. */
    ghost predicate Valid()
      reads this
    {
      !eof ==> readCount <= |input|
    }

    /** The buffered byte followed by what the remaining reads deliver, and the position. */
    ghost function Cur(): Cursor
      reads this
      requires Valid()
    {
      Cursor(if eof then [] else [buf] + Delivered(input[readCount..]), Pos(line, chr))
    }

    /** The outcome of the read numbered `i`; past the given outcomes the input reports `Ok(0)`. */
    function Outcome(i: nat): ReadOutcome
      reads this
    {
      if i < |input| then input[i] else Zero
    }

    /** `new`: perform exactly one read, starting at line 1, column 1. */
    constructor (input: seq<ReadOutcome>)
      ensures Valid()
      ensures this.input == input && readCount == 1 && line == 1 && chr == 1
      ensures eof <==> !Outcome(0).Byte?
      ensures !eof ==> buf == Outcome(0).b
      ensures Cur() == Cursor(Delivered(input), Start)
    {
      this.input := input;
      readCount, buf, eof, line, chr := 0, ' ', false, 1, 1;
      new;
      ReadChar();
    }

    /** `read_char`: one read; a byte fills the buffer, `Ok(0)` and `Err(_)` both set `eof`. */
    method ReadChar()
      modifies this
      ensures readCount == old(readCount) + 1
      ensures Outcome(old(readCount)).Byte? ==> buf == Outcome(old(readCount)).b && eof == old(eof)
      ensures !Outcome(old(readCount)).Byte? ==> eof && buf == old(buf)
      ensures line == old(line) && chr == old(chr)
    {
      var o := Outcome(readCount);
      readCount := readCount + 1;
      match o {
        case Byte(b) => buf := b;
        case Zero => eof := true;
        case Failure => eof := true;
      }
    }

    /** `get`: return the buffered byte, refill the buffer with exactly one read and apply
        `count`; once `eof` is set, no read happens and nothing changes. */
    method Get() returns (c: Option<Char>)
      requires Valid()
      modifies this
      ensures Valid()
      ensures (c, Cur()) == Position.Get(old(Cur()))
      ensures c == old(Peek())
      ensures old(eof) ==> readCount == old(readCount) && eof && line == old(line) && chr == old(chr)
      ensures !old(eof) ==> readCount == old(readCount) + 1
      ensures !old(eof) ==> Pos(line, chr) == Position.Count(old(Pos(line, chr)), old(buf))
      ensures !old(eof) && Outcome(old(readCount)).Byte? ==> !eof && buf == Outcome(old(readCount)).b
      ensures !old(eof) && !Outcome(old(readCount)).Byte? ==> eof
    {
      c := Peek();
      match c {
        case None =>
        case Some(x) =>
          ghost var r := readCount;
          assert input[r..] == [] || input[r..][0] == input[r];
          ReadChar();
          if !eof {
            assert input[r..][1..] == input[readCount..];
          }
          Count(x);
      }
    }

    /** `peek`: None iff `eof`, otherwise the buffered byte; it has no side effects. */
    function Peek(): (r: Option<Char>)
      reads this
      requires Valid()
      ensures r.None? <==> eof
      ensures r.Some? ==> r.value == buf
      ensures r == Position.Peek(Cur())
    {
      if eof then None else Some(buf)
    }

    /** `count` (the trait's default method) on this source: a line feed sets the line
        one down and the column to 1; any other character sets only the column, one right. */
    method Count(c: Char)
      modifies this
      ensures Pos(line, chr) == Position.Count(old(Pos(line, chr)), c)
      ensures readCount == old(readCount) && buf == old(buf) && eof == old(eof)
    {
      var line := Line();
      var chr := Chr();
      if c == '\n' {
        SetLine(line + 1);
        SetChr(1);
      } else {
        SetChr(chr + 1);
      }
    }

    method SetLine(n: nat)
      modifies this
      ensures Line() == n
      ensures readCount == old(readCount) && buf == old(buf) && eof == old(eof) && chr == old(chr)
    {
      line := n;
    }

    method SetChr(n: nat)
      modifies this
      ensures Chr() == n
      ensures readCount == old(readCount) && buf == old(buf) && eof == old(eof) && line == old(line)
    {
      chr := n;
    }

    function Line(): nat
      reads this
    {
      line
    }

    function Chr(): nat
      reads this
    {
      chr
    }
  }

  /** The `new` and `peek` tests of io_lexer.rs over a stream delivering "ab\ncd" one byte
      per read: `new` leaves `eof` unset at (1, 1); `peek` shows the next byte without
      consuming it or moving the position, before and after one `get`. The result lists
      what each `peek` returned, with the line and column at that point. */
  method PeekSequence() returns (eof: bool, trace: seq<(Option<Char>, nat, nat)>)
    ensures !eof
    ensures trace == [(Some('a'), 1, 1), (Some('a'), 1, 1), (Some('b'), 1, 2), (Some('b'), 1, 2)]
  {
    var input := Bytes("ab\ncd");
    assert input[0] == Byte('a') && input[1] == Byte('b');
    var lexer := new IOLexer(input);
    eof := lexer.eof;
    var c := lexer.Peek();
    trace := [(c, lexer.Line(), lexer.Chr())];
    c := lexer.Peek();
    trace := trace + [(c, lexer.Line(), lexer.Chr())];
    var _ := GetThenPosition(lexer);
    c := lexer.Peek();
    trace := trace + [(c, lexer.Line(), lexer.Chr())];
    c := lexer.Peek();
    trace := trace + [(c, lexer.Line(), lexer.Chr())];
  }

  /** One step of the `get` test: call `get`, then read the line and column. Stated on the
      fields alone: the buffered byte is returned and `count` applied to it, the next read
      refills the buffer or sets `eof`; once `eof` is set, None and nothing changes. */
  method GetThenPosition(lexer: IOLexer) returns (entry: (Option<Char>, nat, nat))
    requires lexer.Valid()
    modifies lexer
    ensures lexer.Valid()
    ensures old(lexer.eof) ==>
              && entry == (None, lexer.line, lexer.chr) && lexer.eof
              && lexer.readCount == old(lexer.readCount)
              && lexer.line == old(lexer.line) && lexer.chr == old(lexer.chr)
    ensures !old(lexer.eof) ==>
              var p := Position.Count(old(Pos(lexer.line, lexer.chr)), old(lexer.buf));
              && entry == (Some(old(lexer.buf)), p.line, p.chr) && Pos(lexer.line, lexer.chr) == p
              && lexer.readCount == old(lexer.readCount) + 1
              && (lexer.Outcome(old(lexer.readCount)).Byte? ==>
                    !lexer.eof && lexer.buf == lexer.Outcome(old(lexer.readCount)).b)
              && (!lexer.Outcome(old(lexer.readCount)).Byte? ==> lexer.eof)
  {
    var c := lexer.Get();
    entry := (c, lexer.Line(), lexer.Chr());
  }

  /** The `get` test of io_lexer.rs over the same stream: each `get` returns the next byte
      and moves the position by `count`, and at the end returns None without reading
      again. The trace records what each `get` returned, with the line and column after it. */
  method GetSequence() returns (trace: seq<(Option<Char>, nat, nat)>)
    ensures trace == [(Some('a'), 1, 2), (Some('b'), 1, 3), (Some('\n'), 2, 1),
                     (Some('c'), 2, 2), (Some('d'), 2, 3), (None, 2, 3)]
  {
    var input := Bytes("ab\ncd");
    assert input[0] == Byte('a') && input[1] == Byte('b') && input[2] == Byte('\n');
    assert input[3] == Byte('c') && input[4] == Byte('d') && |input| == 5;
    var lexer := new IOLexer(input);
    var e1 := GetThenPosition(lexer);
    var e2 := GetThenPosition(lexer);
    var e3 := GetThenPosition(lexer);
    var e4 := GetThenPosition(lexer);
    var e5 := GetThenPosition(lexer);
    var e6 := GetThenPosition(lexer);
    trace := [e1, e2, e3, e4, e5, e6];
  }

  /** The `line`, `set_line`, `chr` and `set_chr` tests of io_lexer.rs: a new lexer
      reports (1, 1); after setting both to 43 it reports (43, 43). */
  method SetPosition() returns (before: (nat, nat), after: (nat, nat))
    ensures before == (1, 1) && after == (43, 43)
  {
    var lexer := new IOLexer(Bytes("ab\ncd"));
    before := (lexer.Line(), lexer.Chr());
    lexer.SetLine(43);
    lexer.SetChr(43);
    after := (lexer.Line(), lexer.Chr());
  }
}
