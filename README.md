# A verified model of the rust-scheme tokenizer

This project models the tokenizer of rust-scheme, a small Scheme front end written in
Rust, and proves properties of the model. The tokenizer turns a character source into
tokens: LPAR, RPAR, COMMENT, STRING, INTEGER, FLOAT and IDENT, each carrying the 1-based
line and column of its first character. It reports errors as INVALID, UNTERMINATED,
IDENT, INTEGER, FLOAT and END. The `Lexer` trait's default methods do all the scanning.
They see the source only through six primitives: `get`, `peek`, `set_line`, `set_chr`,
`line` and `chr`. Two sources implement them:

- `StringLexer` reads an in-memory byte buffer.
- `IOLexer` reads any `Read` one byte at a time, keeping one byte of lookahead.

Modules, one concept each:

- `Chars`: the character type and the classes the scanner tests. These are `is_whitespace`, the
  digit range, the 'A'..'z' identifier range, the thirteen characters an identifier may
  hold none of, and Rust's `trim`.
- `Position`: the `count` rule, `Walk` (its fold over a text), and `Cursor`. A cursor is the
  observable state of a source: what it will still deliver, and the current position. The
  pure `Peek` and `Get` on a cursor specify both sources.
- `Tokens`: `Token`, `LexError` and their `number` selectors.
- `Scanner`: each trait method as a total function from a cursor to the result and the
  cursor left behind, branch for branch with the source.
- `StringLexer`, `IoLexer`: the two sources as classes. `StringLexer` keeps the struct's
  fields. `IOLexer` keeps `eof`, `line` and `chr`. Its `[u8; 1]` buffer becomes one `Char`,
  its `BufReader` becomes a constant script of read outcomes, and it adds a count of the
  reads performed. The ghost `Cur()` gives each object's abstract cursor. The constructors,
  `peek` and `get` are proved against it: `get` acts on `Cur()` as `Position.Get` says.
  `read_char`, `count`, `set_line` and `set_chr` are specified on the fields. `count` is
  applied through the setters exactly as the trait does.
- `Lexer`: the trait's default methods as imperative methods over either source. Each is
  proved to compute the `Scanner` function from the state before the call.
- `ScannerFacts`: the properties of the scanner functions. These are what is consumed,
  where tokens start, when END and INVALID occur, round trips for strings, numbers and
  identifiers, and the comment rule.
- `Agreement`: a StringLexer over a text and an IOLexer over a stream delivering that text
  produce the same characters and tokens.

Behaviour of the source that the model reproduces deliberately:

- The identifier range 'A'..'z' also covers `[`, `\`, `]`, `^`, `_` and the backtick. Of
  these, `[`, `\` and `]` are disallowed inside an identifier. So such a first character is
  consumed and fails at once with an empty IDENT error (`ScannerFacts.IdentStartQuirk`).
- `-` and `.` always start a number.
- A number ends only at whitespace or at the end of input. Any other character, a `)`
  included, is pushed and fails as an INTEGER or FLOAT error.
- `read_token`'s `None` branch returns END. It cannot be reached from `next`; it is kept
  for callers of `read_token` itself.
- `IOLexer` treats a read error exactly like a zero-byte read: both set `eof`.

## Model

| member | source | states |
|---|---|---|
| Tokens.Token.Number | src/lexer/lexer.rs:12-20 | the token is FLOAT iff `is_float`, INTEGER otherwise, with text and position unchanged |
| Tokens.LexError.Number | src/lexer/lexer.rs:32-40 | the error is FLOAT iff `is_float`, INTEGER otherwise, with text and position unchanged |
| Chars.TrimStart | src/lexer/lexer.rs:124 | the result is a suffix of the input; every dropped character is whitespace; the result does not start with whitespace |
| Chars.TrimEnd | src/lexer/lexer.rs:124 | the result is a prefix of the input; every dropped character is whitespace; the result does not end with whitespace |
| Chars.TrimPlain | src/lexer/lexer.rs:178 | a text without whitespace, followed by at most one whitespace character, trims to itself (how `number`'s `trim` drops the pushed terminator) |
| Position.Count | src/lexer/lexer.rs:50-63 | the `count` rule on one character (no contract of its own); both classes' `Count` methods are proved to apply it, and `WalkLine`, `WalkColumn` and `WalkAfterNewline` state what it does over a text |
| Position.WalkLine | src/lexer/lexer.rs:50-63 | consuming a text under the `count` rule moves down one line per line feed it contains |
| Position.WalkColumn | src/lexer/lexer.rs:50-63 | consuming a text without a line feed stays on the line and moves one column right per character |
| Position.WalkAfterNewline | src/lexer/lexer.rs:50-63 | after consuming a text whose last line feed is at index k, the column is the number of characters after it plus 1 |
| Position.WalkAppend | src/lexer/lexer.rs:50-63 | applying `count` over `s + t` is applying it over `s`, then over `t` |
| Position.GetAdvances | src/lexer/lexer.rs:43-44 | `get` returns what `peek` shows, consumes exactly that character, and moves the position by `count` |
| Position.AdvancedTrans | src/lexer/lexer.rs:43 | two runs of consumption compose into one, with the position following the concatenated text |
| StringLexer.StringLexer.constructor | src/lexer/string_lexer.rs:12-14 | the buffer is the input, the index 0, line and column 1: the source holds the whole input at (1, 1) |
| StringLexer.StringLexer.Peek | src/lexer/string_lexer.rs:29-35 | `Some` of the byte at the index iff the index is before the end, otherwise None; equal to peeking the abstract state |
| StringLexer.StringLexer.Get | src/lexer/string_lexer.rs:18-27 | returns what `peek` returned; if Some, the index moves one and `count` is applied; at the end, None and nothing changes |
| StringLexer.StringLexer.Count | src/lexer/lexer.rs:50-63 | a line feed sets the line one down and the column to 1; any other character moves the column one right; the index is unchanged |
| StringLexer.StringLexer.SetLine | src/lexer/string_lexer.rs:37-39 | `line()` afterwards returns the value set; index and column unchanged |
| StringLexer.StringLexer.SetChr | src/lexer/string_lexer.rs:41-43 | `chr()` afterwards returns the value set; index and line unchanged |
| StringLexer.PeekSequence | src/lexer/string_lexer.rs:61-84 | over "ab\ncd", `new` starts at (1, 1) and `peek` returns 'a' twice at (1, 1), then after one `get` 'b' twice at (1, 2) |
| StringLexer.GetThenPosition | src/lexer/string_lexer.rs:18-27 | before the end, `get` returns the byte at the index, moves the index by one and the position by `count`; at the end, None and nothing changes |
| StringLexer.GetSequence | src/lexer/string_lexer.rs:86-106 | over "ab\ncd", six `get`s return a, b, line feed, c, d, None at (1, 2), (1, 3), (2, 1), (2, 2), (2, 3), (2, 3) |
| StringLexer.SetPosition | src/lexer/string_lexer.rs:108-138 | a new lexer reports line and column (1, 1); after setting both to 43 it reports (43, 43) |
| IoLexer.Delivered | src/lexer/io_lexer.rs:20-27 | the bytes a run of reads delivers are those before the first outcome that is not a byte |
| IoLexer.Bytes | src/lexer/io_lexer.rs:122-168 | the stream the io_lexer tests read: one read per byte of the text, same length, byte for byte |
| IoLexer.DeliveredBytes | src/lexer/io_lexer.rs:20-27 | a stream giving the bytes of `s` and then `Ok(0)`, an error, or nothing delivers exactly `s` |
| IoLexer.ErrorLikeZero | src/lexer/io_lexer.rs:22-24 | a read error and a zero-byte read end the stream alike, whatever follows them |
| IoLexer.IOLexer.constructor | src/lexer/io_lexer.rs:14-18 | exactly one read is performed; `eof` is set iff it delivered no byte; the source holds everything the stream delivers, at (1, 1) |
| IoLexer.IOLexer.ReadChar | src/lexer/io_lexer.rs:20-27 | exactly one read; a byte fills the buffer and leaves `eof` unchanged; `Ok(0)` and `Err(_)` set `eof` and leave the buffer unchanged |
| IoLexer.IOLexer.Get | src/lexer/io_lexer.rs:31-40 | returns what `peek` returned; if Some, exactly one more read is performed and `count` is applied; after `eof`, None with no read and no change |
| IoLexer.IOLexer.Peek | src/lexer/io_lexer.rs:42-48 | None iff `eof`, otherwise the buffered byte; equal to peeking the abstract state |
| IoLexer.IOLexer.Count | src/lexer/lexer.rs:50-63 | as for StringLexer: a line feed goes to column 1 of the next line, anything else one column right; nothing else changes |
| IoLexer.IOLexer.SetLine | src/lexer/io_lexer.rs:50-52 | `line()` afterwards returns the value set; buffer, `eof`, reads and column unchanged |
| IoLexer.IOLexer.SetChr | src/lexer/io_lexer.rs:54-56 | `chr()` afterwards returns the value set; buffer, `eof`, reads and line unchanged |
| IoLexer.PeekSequence | src/lexer/io_lexer.rs:122-146 | over a stream delivering "ab\ncd", `new` leaves `eof` unset; `peek` returns 'a' twice at (1, 1), then after one `get` 'b' twice at (1, 2) |
| IoLexer.GetThenPosition | src/lexer/io_lexer.rs:31-40 | before `eof`, `get` returns the buffered byte, performs one read that refills the buffer or sets `eof`, and moves the position by `count`; after `eof`, None with no read and no change |
| IoLexer.GetSequence | src/lexer/io_lexer.rs:148-168 | over the same stream, six `get`s return a, b, line feed, c, d, None at (1, 2), (1, 3), (2, 1), (2, 2), (2, 3), (2, 3) |
| IoLexer.SetPosition | src/lexer/io_lexer.rs:170-200 | a new lexer reports line and column (1, 1); after setting both to 43 it reports (43, 43) |
| Lexer.Source.Peek | src/lexer/lexer.rs:44 | the implementor's `peek` is peeking its abstract state |
| Lexer.Source.Line | src/lexer/lexer.rs:47 | the implementor's `line` is the line of its abstract state |
| Lexer.Source.Chr | src/lexer/lexer.rs:48 | the implementor's `chr` is the column of its abstract state |
| Lexer.Source.Get | src/lexer/lexer.rs:43 | the implementor's `get` acts on its abstract state as the cursor `Get` |
| Lexer.Next | src/lexer/lexer.rs:65-71 | the result and the new state are `ScanNext` of the old state |
| Lexer.ReadToken | src/lexer/lexer.rs:73-86 | the result and the new state are `ScanToken` of the old state |
| Lexer.ConsumeWhitespace | src/lexer/lexer.rs:88-96 | the new state is `SkipWhitespace` of the old one |
| Lexer.LPar | src/lexer/lexer.rs:98-103 | LPAR at the old position, with one character consumed |
| Lexer.RPar | src/lexer/lexer.rs:105-110 | RPAR at the old position, with one character consumed |
| Lexer.Comment | src/lexer/lexer.rs:112-124 | the result and the new state are `ScanComment` of the old state |
| Lexer.String | src/lexer/lexer.rs:127-148 | the result and the new state are `ScanString` of the old state |
| Lexer.Number | src/lexer/lexer.rs:150-179 | the result and the new state are `ScanNumber` of the old state, the leading minus included |
| Lexer.Ident | src/lexer/lexer.rs:181-198 | the result and the new state are `ScanIdent` of the old state |
| Scanner.ScanNext | src/lexer/lexer.rs:65-71 | the pure model of `next` (no contract of its own); its meaning is stated by `ScanNextAdvances`, `ScanNextPosition`, `ScanNextEnd`, `ScanNextEndPosition` and `ScanNextInvalid` |
| Scanner.ScanToken | src/lexer/lexer.rs:73-86 | the pure model of `read_token` (no contract of its own); its meaning is stated by `ScanTokenStart` and `ScanTokenAdvances` |
| Scanner.ScanLPar | src/lexer/lexer.rs:98-103 | the pure model of `lpar` (no contract of its own); stated through `next` by `NextLPar` |
| Scanner.ScanRPar | src/lexer/lexer.rs:105-110 | the pure model of `rpar` (no contract of its own); stated through `next` by `NextRPar` |
| Scanner.ScanComment | src/lexer/lexer.rs:112-125 | the pure model of `comment` (no contract of its own); its meaning is stated by `CommentLine`, `CommentAtEnd` and `NextComment` |
| Scanner.ScanString | src/lexer/lexer.rs:127-148 | the pure model of `string` (no contract of its own); its meaning is stated by `StringRoundTrip`, `StringUnterminated` and `NextString` |
| Scanner.ScanNumber | src/lexer/lexer.rs:150-179 | the pure model of `number` (no contract of its own); its meaning is stated by `NumberRoundTrip`, `NumberSound`, `NumberSecondDot` and `NumberBadChar` |
| Scanner.ScanIdent | src/lexer/lexer.rs:181-198 | the pure model of `ident` (no contract of its own); its meaning is stated by `IdentRoundTrip`, `IdentSound` and `IdentRejects` |
| Scanner.SkipWhitespace | src/lexer/lexer.rs:88-96 | only a prefix is consumed, every consumed character is whitespace, and the next character is not whitespace |
| Scanner.CommentLoop | src/lexer/lexer.rs:117-123 | the text is the input up to the first line feed or the end; the line feed is consumed and not kept |
| Scanner.StringLoop | src/lexer/lexer.rs:135-147 | the result carries the opening position; success is STRING, failure is UNTERMINATED |
| Scanner.NumberLoop | src/lexer/lexer.rs:160-178 | the result carries the start position; success is INTEGER or FLOAT, failure an INTEGER or FLOAT error |
| Scanner.IdentLoop | src/lexer/lexer.rs:187-197 | the result carries the start position; success is IDENT, failure an IDENT error |
| ScannerFacts.SkipWhitespaceAdvances | src/lexer/lexer.rs:88-96 | skipping whitespace only consumes, and the position follows `count` over what it consumed |
| ScannerFacts.SkipWhitespaceRun | src/lexer/lexer.rs:88-96 | skipping whitespace consumes exactly the leading run of whitespace characters |
| ScannerFacts.CommentLoopAdvances | src/lexer/lexer.rs:117-123 | the comment loop only consumes, with the position following `count` |
| ScannerFacts.StringLoopAdvances | src/lexer/lexer.rs:135-147 | the string loop only consumes, with the position following `count` |
| ScannerFacts.NumberLoopAdvances | src/lexer/lexer.rs:160-178 | the number loop only consumes, with the position following `count` |
| ScannerFacts.IdentLoopAdvances | src/lexer/lexer.rs:187-197 | the identifier loop only consumes, with the position following `count` |
| ScannerFacts.ScanTokenAdvances | src/lexer/lexer.rs:73-86 | every branch of `read_token` only consumes, with the position following `count` |
| ScannerFacts.ScanNextAdvances | src/lexer/lexer.rs:65-71 | `next` only consumes, with the position following `count` over everything consumed |
| ScannerFacts.ScanTokenStart | src/lexer/lexer.rs:73-86 | on a lookahead: the result carries the position before it; a token is of the kind the lookahead dispatches to; END is never returned; INVALID iff the character starts no token, and then nothing is consumed |
| ScannerFacts.ScanNextPosition | src/lexer/lexer.rs:65-71 | `next` first consumes whitespace only; its result carries the position after that whitespace; a token is of the kind its first character dispatches to |
| ScannerFacts.ScanNextEnd | src/lexer/lexer.rs:65-71 | END iff nothing but whitespace remains |
| ScannerFacts.ScanNextEndPosition | src/lexer/lexer.rs:65-71 | when nothing but whitespace remains, all of it is consumed and END reports the position after it (on empty input, the position it started from) |
| ScannerFacts.ScanNextInvalid | src/lexer/lexer.rs:65-86 | INVALID iff the first non-whitespace character starts no token; the error names that character and its position, which is left unconsumed |
| ScannerFacts.StringLoopBackslash | src/lexer/lexer.rs:138-141 | a backslash and any character after it, whatever that character is, append that character and consume both |
| ScannerFacts.StringLoopPlain | src/lexer/lexer.rs:144 | a character other than a backslash, a line feed or a quote is appended and consumed |
| ScannerFacts.StringLoopEscapedChar | src/lexer/lexer.rs:138-144 | one character in its escaped form (backslash first for `"`, `\` and line feed, itself otherwise) is appended verbatim |
| ScannerFacts.StringLoopEscaped | src/lexer/lexer.rs:135-147 | scanning the escaped form of a text inside a literal appends exactly that text |
| ScannerFacts.StringRoundTrip | src/lexer/lexer.rs:127-148 | a quote, an escaped text and a quote read back as STRING of that text at the opening quote, consuming exactly the literal |
| ScannerFacts.StringUnterminated | src/lexer/lexer.rs:135-147 | a literal cut by the end of input, a trailing backslash or a raw line feed is UNTERMINATED with the text so far, at the opening quote |
| ScannerFacts.NumberLoopRun | src/lexer/lexer.rs:161-169 | digits and at most one dot are pushed, and the float flag is set iff a dot was read |
| ScannerFacts.ScanNumeral | src/lexer/lexer.rs:150-169 | `number` consumes a numeral, minus sign included, and continues with it pushed |
| ScannerFacts.NumberRoundTrip | src/lexer/lexer.rs:150-179 | a numeral at the end of input reads back as itself, FLOAT iff it holds a dot, INTEGER otherwise |
| ScannerFacts.NumberThenWhitespace | src/lexer/lexer.rs:150-179 | a numeral followed by whitespace reads back as itself; the whitespace is consumed and trimmed away |
| ScannerFacts.NextNumeral | src/lexer/lexer.rs:242-309 | through `next`, a numeral starting with a digit, `-` or `.` reads as one INTEGER or FLOAT token, FLOAT iff it holds a dot |
| ScannerFacts.NumberSecondDot | src/lexer/lexer.rs:165-166 | a second dot is pushed and fails as a FLOAT error |
| ScannerFacts.NumberBadChar | src/lexer/lexer.rs:170-174 | any other character (not digit, dot or whitespace) is pushed and fails as INTEGER or FLOAT by the flag, so `12)` and `12f` are INTEGER errors |
| ScannerFacts.NumberLoopSound | src/lexer/lexer.rs:160-178 | every number the loop returns is a numeral and is FLOAT iff it holds a dot |
| ScannerFacts.NumberSound | src/lexer/lexer.rs:150-179 | every INTEGER or FLOAT token of `number` is a numeral, FLOAT iff it holds a dot |
| ScannerFacts.IdentLoopRun | src/lexer/lexer.rs:187-194 | identifier characters are pushed one by one with no early exit |
| ScannerFacts.IdentRoundTrip | src/lexer/lexer.rs:181-198 | an identifier text at the end of input reads back as IDENT of itself |
| ScannerFacts.IdentThenWhitespace | src/lexer/lexer.rs:181-198 | an identifier followed by whitespace reads back as itself; the whitespace is consumed |
| ScannerFacts.IdentRejects | src/lexer/lexer.rs:188-189 | a disallowed character is consumed and fails with exactly the text before it |
| ScannerFacts.IdentLoopSound | src/lexer/lexer.rs:187-197 | the text of every identifier and identifier error holds no disallowed character and no whitespace |
| ScannerFacts.IdentSound | src/lexer/lexer.rs:181-198 | every IDENT token and IDENT error of `ident` holds no disallowed character and no whitespace |
| ScannerFacts.NextDispatchesNumber | src/lexer/lexer.rs:80 | a lookahead that is a digit, `-` or `.` makes `next` run `number` from the current position |
| ScannerFacts.NextDispatchesIdent | src/lexer/lexer.rs:81 | a lookahead in 'A'..'z' makes `next` run `ident` from the current position |
| ScannerFacts.NextIdentRejects | src/lexer/lexer.rs:389-403 | through `next`, an identifier containing a disallowed character fails with the text before it, at (line, column) of its start |
| ScannerFacts.IdentStartQuirk | src/lexer/lexer.rs:81 | `[`, `\` and `]` are in the identifier range and disallowed: `next` consumes one and fails with an empty IDENT error |
| ScannerFacts.CommentLine | src/lexer/lexer.rs:112-124 | a comment is the trimmed text to the line feed, which is consumed; the source moves to column 1 of the next line |
| ScannerFacts.CommentAtEnd | src/lexer/lexer.rs:112-124 | a comment at the end of input runs to the end and never fails |
| ScannerFacts.NextLPar | src/lexer/lexer.rs:206-211 | `next` on `(` returns LPAR at the start position and consumes exactly the parenthesis |
| ScannerFacts.NextRPar | src/lexer/lexer.rs:213-218 | `next` on `)` returns RPAR at the start position and consumes exactly the parenthesis |
| ScannerFacts.NextDispatchesString | src/lexer/lexer.rs:79 | a quote lookahead makes `next` run `string` from the current position |
| ScannerFacts.NextDispatchesComment | src/lexer/lexer.rs:78 | a semicolon lookahead makes `next` run `comment` from the current position |
| ScannerFacts.NextString | src/lexer/lexer.rs:220-225 | through `next`, a quoted escaped text reads back as STRING of that text at the opening quote, consuming exactly the literal |
| ScannerFacts.NextUnterminated | src/lexer/lexer.rs:382-386 | through `next`, after any whitespace, a literal cut by the end of input, a trailing backslash or a raw line feed is UNTERMINATED with the text so far, at the opening quote's position |
| ScannerFacts.NextComment | src/lexer/lexer.rs:227-232 | through `next`, a comment running to the end of input is COMMENT of its trimmed text, semicolon included, at its start |
| Agreement.NewInStep | src/lexer/io_lexer.rs:122-128 | a StringLexer over a text and an IOLexer over a stream delivering it (then `Ok(0)`, an error or nothing) start in the same state, the text at (1, 1) |
| Agreement.GetInStep | src/lexer/io_lexer.rs:148-168 | from the same state both sources' `get` return the same character and reach the same state |
| Agreement.NextInStep | src/lexer/lexer.rs:65-71 | from the same state `next` returns the same token or error on both sources and leaves them in the same state |

## Left out

- Line and column are unbounded naturals. The source's `u32` counters, which overflow
  after 2^32 - 1 lines or columns, are not modelled.
- Characters are bytes. Both sources turn each byte into a `char` with `as char`. The
  model's `Char` is a character below 256, and `is_whitespace` is Rust's definition
  restricted to that range. The UTF-8 encoding of the `String` passed to
  `StringLexer::new` is not modelled: the constructor takes the bytes.
- `BufReader` and the `Read` it wraps are a script of read outcomes: a byte, `Ok(0)`, or an
  error. Reads past the end of the script report `Ok(0)`. Buffering, partial reads and
  I/O itself are not modelled.
- The trait is a datatype over its two implementors (`Lexer.Source`). Its default
  methods take the source as a parameter.
- `count` is the trait's one default method (src/lexer/lexer.rs:50-63) but is written
  in each class (`StringLexer.StringLexer.Count`, `IoLexer.IOLexer.Count`). `get` calls it,
  and the module declaring `Source` imports both classes, so the classes cannot call
  back into it. Both copies have the same body and the same contract over
  `Position.Count`, which states the rule once.
- `IOLexer`'s fields differ from the struct's. The `[u8; 1]` buffer is one `Char`. The
  `BufReader` is a constant script of outcomes, with a count of the reads performed
  standing for its progress.
- In both classes, `read_char`, `count`, `set_line` and `set_chr` are specified on the
  fields, not on `Cur()`. The tests' step helpers `GetThenPosition` restate `get` on the
  fields too.
- `peek` is modelled as a read-only function. `StringLexer::peek` takes `&mut self` but
  changes nothing.
- The test double `FakeFile` (src/lexer/io_lexer.rs:76-120) is not modelled. `IOLexer::new`
  wraps it in a `BufReader`, whose one-byte reads fill its own buffer from `FakeFile` and so
  see the five bytes of "ab\ncd" one per `read_char`, then `Ok(0)`. That is exactly
  `IoLexer.Bytes("ab\ncd")` followed by the script's implicit `Ok(0)`, the stream the
  io_lexer tests read.
- The test cases with concrete text in src/lexer/lexer.rs are stated through general lemmas
  about `next` that cover them, not as lemmas about the literal strings.
  `NumberBadChar` is stated on `number`, below `next`; `NextDispatchesNumber` connects the two.
  `read_all`'s sixteen tokens are not restated one by one. The tests and their lemmas:
  - `read_lpar` and `read_rpar` through `NextLPar` and `NextRPar`;
  - `read_string` through `NextString`;
  - `read_comment` through `NextComment`;
  - `error_unterminated` and `error_unterminated_multiline` through `NextUnterminated`,
    whose leading whitespace covers the multiline case;
  - the number tests through `NextNumeral` and `NumberBadChar`;
  - `error_ident` through `NextIdentRejects`;
  - the END and INVALID cases through `ScanNextEnd`, `ScanNextEndPosition` and
    `ScanNextInvalid`.
- src/lexer.rs, src/main.rs, src/parser.rs and src/lexer/mod.rs are not part of this model.
