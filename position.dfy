/** Line/column bookkeeping and the abstract state of a character source. */
module Position {
  import opened Wrappers
  import opened Chars

  /** A 1-indexed (line, column) pair; the source calls the column `chr`. */
  datatype Pos = Pos(line: nat, chr: nat)

  /** Both sources start at line 1, column 1. */
  const Start := Pos(1, 1)

  /** The rule `count` applies to every consumed character: a line feed moves to
      column 1 of the next line, any other character moves one column right. */
  function Count(p: Pos, c: Char): Pos
  {
    if c == '\n' then Pos(p.line + 1, 1) else Pos(p.line, p.chr + 1)
  }

  /** The position reached from `p` by consuming `s` one character at a time. */
  function Walk(p: Pos, s: seq<Char>): Pos
    decreases |s|
  {
    if s == [] then p else Walk(Count(p, s[0]), s[1..])
  }

  function Newlines(s: seq<Char>): nat
  {
    if s == [] then 0 else (if s[0] == '\n' then 1 else 0) + Newlines(s[1..])
  }

  lemma {:induction false} WalkAppend(p: Pos, s: seq<Char>, t: seq<Char>)
    ensures Walk(p, s + t) == Walk(Walk(p, s), t)
    decreases |s|
  {
    if s != [] {
      assert (s + t)[0] == s[0] && (s + t)[1..] == s[1..] + t;
      WalkAppend(Count(p, s[0]), s[1..], t);
    } else {
      assert s + t == t;
    }
  }

  lemma WalkOne(p: Pos, c: Char)
    ensures Walk(p, [c]) == Count(p, c)
  {
    assert [c][1..] == [];
  }

  lemma WalkSnoc(p: Pos, s: seq<Char>, c: Char)
    ensures Walk(p, s + [c]) == Count(Walk(p, s), c)
  {
    WalkAppend(p, s, [c]);
    WalkOne(Walk(p, s), c);
  }

  /** Consuming `s` moves down exactly one line per line feed in `s`. */
  lemma {:induction false} WalkLine(p: Pos, s: seq<Char>)
    ensures Walk(p, s).line == p.line + Newlines(s)
    decreases |s|
  {
    if s != [] {
      WalkLine(Count(p, s[0]), s[1..]);
    }
  }

  /** Consuming `s` without a line feed stays on the line and moves |s| columns right. */
  lemma {:induction false} WalkColumn(p: Pos, s: seq<Char>)
    requires forall i | 0 <= i < |s| :: s[i] != '\n'
    ensures Walk(p, s) == Pos(p.line, p.chr + |s|)
    decreases |s|
  {
    if s != [] {
      assert s[0] != '\n';
      WalkColumn(Count(p, s[0]), s[1..]);
    }
  }

  /** After the last line feed of `s`, at index `k`, the column counts
      the characters that follow it, starting from 1. */
  lemma WalkAfterNewline(p: Pos, s: seq<Char>, k: nat)
    requires k < |s| && s[k] == '\n'
    requires forall j | k < j < |s| :: s[j] != '\n'
    ensures Walk(p, s) == Pos(p.line + Newlines(s), |s| - k)
  {
    WalkLine(p, s);
    assert s == s[..k] + [s[k]] + s[k + 1..];
    WalkAppend(p, s[..k] + [s[k]], s[k + 1..]);
    WalkSnoc(p, s[..k], s[k]);
    WalkColumn(Walk(p, s[..k + 1]), s[k + 1..]);
  }

  /** The observable state of a character source: the characters it will still
      deliver, and the position of the next one. */
  datatype Cursor = Cursor(rest: seq<Char>, pos: Pos)

  /** `peek`: the next character, or None at end of input. */
  function Peek(c: Cursor): Option<Char>
  {
    if c.rest == [] then None else Some(c.rest[0])
  }

  /** `get`: the next character and the state after consuming it (with `count`
      applied), or None and the unchanged state at end of input. */
  function Get(c: Cursor): (Option<Char>, Cursor)
  {
    if c.rest == [] then (None, c)
    else (Some(c.rest[0]), Cursor(c.rest[1..], Count(c.pos, c.rest[0])))
  }

  /** `get` on a source whose next character is `x`. */
  lemma GetCons(x: Char, r: seq<Char>, q: Pos)
    ensures Get(Cursor([x] + r, q)) == (Some(x), Cursor(r, Count(q, x)))
  {
    assert ([x] + r)[0] == x && ([x] + r)[1..] == r;
  }

  /** The characters consumed between cursors `c` and `d`. */
  function Consumed(c: Cursor, d: Cursor): seq<Char>
    requires |d.rest| <= |c.rest|
  {
    c.rest[..|c.rest| - |d.rest|]
  }

  /** `d` is reached from `c` by consuming characters: what is left is a suffix of
      what was there, and the position is the one reached by consuming the rest. */
  ghost predicate Advanced(c: Cursor, d: Cursor)
  {
    && |d.rest| <= |c.rest|
    && c.rest == Consumed(c, d) + d.rest
    && d.pos == Walk(c.pos, Consumed(c, d))
  }

  lemma GetAdvances(c: Cursor)
    ensures Advanced(c, Get(c).1)
    ensures |Get(c).1.rest| == if c.rest == [] then 0 else |c.rest| - 1
    ensures Get(c).0 == Peek(c)
  {
    var d := Get(c).1;
    if c.rest != [] {
      assert Consumed(c, d) == [c.rest[0]];
    } else {
      assert Consumed(c, d) == [];
    }
  }

  lemma AdvancedTrans(a: Cursor, b: Cursor, c: Cursor)
    requires Advanced(a, b) && Advanced(b, c)
    ensures Advanced(a, c)
  {
    var s, t := Consumed(a, b), Consumed(b, c);
    assert a.rest == s + t + c.rest;
    assert Consumed(a, c) == s + t;
    WalkAppend(a.pos, s, t);
  }
}
