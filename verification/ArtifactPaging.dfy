/** Reading a page of lines from a stored text through a buffered reader. */
module ArtifactPaging {
  import opened Common

  const NL: byte := 10
  const CR: byte := 13

  // ---- Lines -----------------------------------------------------------------------------------

  /** Position of the first newline, or the length when there is none. */
  function LineEnd(s: seq<byte>): (n: nat)
    ensures n <= |s|
  {
    if s == [] || s[0] == NL then 0 else 1 + LineEnd(s[1..])
  }

  function Stripped(line: seq<byte>): seq<byte> {
    if line != [] && line[|line| - 1] == CR then line[..|line| - 1] else line
  }

  /** The first line without its terminator; a carriage return goes only with a newline. */
  function FirstLine(s: seq<byte>): seq<byte> {
    if LineEnd(s) < |s| then Stripped(s[..LineEnd(s)]) else s
  }

  function AfterLine(s: seq<byte>): (r: seq<byte>)
    ensures s != [] ==> |r| < |s|
  {
    if LineEnd(s) < |s| then s[LineEnd(s) + 1..] else []
  }

  function Lines(s: seq<byte>): seq<seq<byte>>
    decreases |s|
  {
    if s == [] then [] else [FirstLine(s)] + Lines(AfterLine(s))
  }

  /** What one bounded read returns and what it leaves: a function of the bytes and the limit alone. */
  datatype Read = End | Line(line: seq<byte>, truncated: bool, left: seq<byte>)

  function BoundedLine(s: seq<byte>, limit: nat): Read {
    if s == [] then End
    else if LineEnd(s) > limit then Line(s[..limit], true, s[limit..])
    else Line(FirstLine(s), false, AfterLine(s))
  }

  lemma {:induction false} LineEndIs(s: seq<byte>)
    ensures forall i :: 0 <= i < LineEnd(s) ==> s[i] != NL
    ensures LineEnd(s) < |s| ==> s[LineEnd(s)] == NL
  {
    if s != [] && s[0] != NL {
      LineEndIs(s[1..]);
      assert forall i :: 0 < i < |s| ==> s[i] == s[1..][i - 1];
    }
  }

  lemma {:induction false} LineEndWithin(s: seq<byte>, n: nat)
    requires n <= |s|
    requires forall i :: 0 <= i < n ==> s[i] != NL
    requires n < |s| ==> s[n] == NL
    ensures LineEnd(s) == n
  {
    if s != [] && s[0] != NL {
      LineEndWithin(s[1..], n - 1);
    }
  }

  /** Taken so far `line`; the next `n` bytes hold no newline and exceed what the limit leaves. */
  lemma {:induction false} CutShort(line: seq<byte>, rest: seq<byte>, n: nat, limit: nat)
    requires NL !in line && |line| <= limit && n <= |rest| && NL !in rest[..n]
    requires limit - |line| < n
    ensures BoundedLine(line + rest, limit) ==
            Line(line + rest[..limit - |line|], true, rest[limit - |line|..])
  {
    var s := line + rest;
    assert forall i :: 0 <= i < |line| + n ==> s[i] == (line + rest[..n])[i] != NL;
    LineEndIs(s);
    assert s[..limit] == line + rest[..limit - |line|];
    assert s[limit..] == rest[limit - |line|..];
  }

  /** Taken so far `line`; the newline comes `n` bytes on, within the limit. */
  lemma {:induction false} Terminated(line: seq<byte>, rest: seq<byte>, n: nat, limit: nat)
    requires NL !in line && n < |rest| && NL !in rest[..n] && rest[n] == NL
    requires |line| + n <= limit
    ensures BoundedLine(line + rest, limit) == Line(Stripped(line + rest[..n]), false, rest[n + 1..])
  {
    var s := line + rest;
    assert forall i :: 0 <= i < |line| + n ==> s[i] == (line + rest[..n])[i] != NL;
    LineEndWithin(s, |line| + n);
    assert s[..|line| + n] == line + rest[..n];
    assert s[|line| + n + 1..] == rest[n + 1..];
  }

  /** Taken so far `line`, and nothing is left. */
  lemma {:induction false} RanOut(line: seq<byte>, limit: nat)
    requires NL !in line && |line| <= limit
    ensures BoundedLine(line, limit) == if line == [] then End else Line(line, false, [])
  {
    LineEndWithin(line, |line|);
  }

  method Position(buf: seq<byte>) returns (n: nat)
    ensures n <= |buf|
    ensures forall i :: 0 <= i < n ==> buf[i] != NL
    ensures n < |buf| ==> buf[n] == NL
  {
    n := 0;
    while n < |buf| && buf[n] != NL
      invariant n <= |buf|
      invariant forall i :: 0 <= i < n ==> buf[i] != NL
    {
      n := n + 1;
    }
  }

  /** A reader over bytes not yet consumed, which fills its buffer as far as it likes. */
  class BufReader {
    var rest: seq<byte>

    constructor (bytes: seq<byte>)
      ensures rest == bytes
    {
      rest := bytes;
    }

    method FillBuf() returns (buf: seq<byte>)
      ensures buf <= rest
      ensures buf == [] <==> rest == []
    {
      if rest == [] {
        return [];
      }
      var n :| 1 <= n <= |rest|;
      buf := rest[..n];
    }

    method Consume(n: nat)
      requires n <= |rest|
      modifies this
      ensures rest == old(rest)[n..]
    {
      rest := rest[n..];
    }

    method SkipUntilNewline() returns (consumed: nat)
      modifies this
      ensures rest == AfterLine(old(rest))
      ensures consumed == |old(rest)| - |rest|
    {
      consumed := 0;
      ghost var skipped: seq<byte> := [];
      while true
        invariant old(rest) == skipped + rest && consumed == |skipped|
        invariant NL !in skipped
        decreases |rest|
      {
        var buf := FillBuf();
        if buf == [] {
          LineEndWithin(old(rest), |skipped|);
          return;
        }
        var newline := Position(buf);
        if newline < |buf| {
          LineEndWithin(old(rest), |skipped| + newline);
          consumed := consumed + newline + 1;
          Consume(newline + 1);
          return;
        }
        skipped := skipped + buf;
        consumed := consumed + |buf|;
        Consume(|buf|);
      }
    }

    /** Take what is left of the line within the limit; the buffer holds no newline before `n`. */
    method CutLine(line: seq<byte>, n: nat, limit: nat) returns (r: Option<(seq<byte>, bool)>)
      requires NL !in line && |line| <= limit && n <= |rest| && NL !in rest[..n] && limit - |line| < n
      modifies this
      ensures BoundedLine(line + old(rest), limit).Line?
      ensures var read := BoundedLine(line + old(rest), limit);
        r == Some((read.line, read.truncated)) && rest == read.left
    {
      CutShort(line, rest, n, limit);
      r := Some((line + rest[..limit - |line|], true));
      Consume(limit - |line|);
    }

    /** Take the rest of the line and its newline, `n` bytes on. */
    method EndLine(line: seq<byte>, n: nat, limit: nat) returns (r: Option<(seq<byte>, bool)>)
      requires NL !in line && n < |rest| && NL !in rest[..n] && rest[n] == NL && |line| + n <= limit
      modifies this
      ensures BoundedLine(line + old(rest), limit).Line?
      ensures var read := BoundedLine(line + old(rest), limit);
        r == Some((read.line, read.truncated)) && rest == read.left
    {
      Terminated(line, rest, n, limit);
      r := Some((Stripped(line + rest[..n]), false));
      Consume(n + 1);
    }

    /** One line of at most `limit` bytes, however the buffer is filled. */
    method ReadBoundedLine(limit: nat) returns (r: Option<(seq<byte>, bool)>)
      modifies this
      ensures var read := BoundedLine(old(rest), limit);
        if read.End? then r == None && rest == old(rest)
        else r == Some((read.line, read.truncated)) && rest == read.left
    {
      var line: seq<byte> := [];
      while true
        invariant old(rest) == line + rest
        invariant NL !in line && |line| <= limit
        decreases |rest|
      {
        var buf := FillBuf();
        if buf == [] {
          assert old(rest) == line;
          RanOut(line, limit);
          return if line == [] then None else Some((line, false));
        }
        var newline := Position(buf);
        assert buf[..newline] == rest[..newline];
        var available := limit - |line|;
        if newline < |buf| {
          if available < newline {
            r := CutLine(line, newline, limit);
          } else {
            r := EndLine(line, newline, limit);
          }
          return;
        }
        if available < |buf| {
          r := CutLine(line, |buf|, limit);
          return;
        }
        line := line + buf;
        Consume(|buf|);
      }
    }
  }

  // ---- Pages -----------------------------------------------------------------------------------

  function Extended(selected: seq<byte>, first: bool, line: seq<byte>): seq<byte> {
    (if first then selected else selected + [NL]) + line
  }

  /** Lines joined by newlines onto what is already selected. */
  function Glue(selected: seq<byte>, first: bool, lines: seq<seq<byte>>): seq<byte>
    decreases |lines|
  {
    if lines == [] then selected
    else Glue(Extended(selected, first, lines[0]), false, lines[1..])
  }

  function Join(lines: seq<seq<byte>>): seq<byte> {
    Glue([], true, lines)
  }

  function Take<T>(s: seq<T>, n: nat): seq<T> {
    s[..Min(n, |s|)]
  }

  function Drop<T>(s: seq<T>, n: nat): seq<T> {
    s[Min(n, |s|)..]
  }

  function SkipLines(s: seq<byte>, n: nat): seq<byte>
    decreases n
  {
    if n == 0 || s == [] then s else SkipLines(AfterLine(s), n - 1)
  }

  function Monus(a: nat, b: nat): nat {
    if a < b then 0 else a - b
  }

  /** What the next line may still take. */
  function Remaining(selected: seq<byte>, first: bool, cap: nat): nat {
    Monus(cap, |selected| + if first then 0 else 1)
  }

  datatype Page = Page(bytes: seq<byte>, lines: nat, truncated: bool, left: seq<byte>)

  /** At most `n` lines from `s`, within a byte cap that the separators are held against too. */
  function Select(s: seq<byte>, n: nat, selected: seq<byte>, first: bool, cap: nat): Page
    decreases n
  {
    if n == 0 then Page(selected, 0, false, s)
    else
      match BoundedLine(s, Remaining(selected, first, cap))
      case End => Page(selected, 0, false, s)
      case Line(line, truncated, left) =>
        var more := Extended(selected, first, line);
        if truncated then Page(more, 1, true, left)
        else
          var rest := Select(left, n - 1, more, false, cap);
          rest.(lines := rest.lines + 1)
  }

  lemma {:induction false} TakeLine(s: seq<byte>, n: nat)
    requires s != [] && n > 0
    ensures Take(Lines(s), n) == [FirstLine(s)] + Take(Lines(AfterLine(s)), n - 1)
    ensures Drop(Lines(s), n) == Drop(Lines(AfterLine(s)), n - 1)
  {
  }

  lemma {:induction false} LinesAfterSkip(s: seq<byte>, n: nat)
    ensures Lines(SkipLines(s, n)) == Drop(Lines(s), n)
    decreases n
  {
    if n > 0 && s != [] {
      LinesAfterSkip(AfterLine(s), n - 1);
      assert SkipLines(s, n) == SkipLines(AfterLine(s), n - 1);
      TakeLine(s, n);
    } else {
      assert SkipLines(s, n) == s && Drop(Lines(s), n) == Lines(s);
    }
  }

  lemma {:induction false} GlueLine(selected: seq<byte>, first: bool, line: seq<byte>, lines: seq<seq<byte>>)
    ensures Glue(selected, first, [line] + lines) == Glue(Extended(selected, first, line), false, lines)
  {
    assert ([line] + lines)[1..] == lines;
  }

  lemma {:induction false} SelectStep(s: seq<byte>, n: nat, selected: seq<byte>, first: bool, cap: nat)
    requires n > 0 && s != []
    ensures var limit := Remaining(selected, first, cap);
      var rest := Select(AfterLine(s), n - 1, Extended(selected, first, FirstLine(s)), false, cap);
      Select(s, n, selected, first, cap) ==
        if LineEnd(s) > limit then Page(Extended(selected, first, s[..limit]), 1, true, s[limit..])
        else rest.(lines := rest.lines + 1)
  {
  }

  /** An untruncated page is the requested lines joined by newlines, and leaves the other lines. */
  lemma {:induction false} UntruncatedPage(s: seq<byte>, n: nat, selected: seq<byte>, first: bool, cap: nat)
    requires !Select(s, n, selected, first, cap).truncated
    ensures var page := Select(s, n, selected, first, cap);
      && page.bytes == Glue(selected, first, Take(Lines(s), n))
      && page.lines == |Take(Lines(s), n)|
      && Lines(page.left) == Drop(Lines(s), n)
    decreases n
  {
    if n > 0 && s != [] {
      SelectStep(s, n, selected, first, cap);
      UntruncatedPage(AfterLine(s), n - 1, Extended(selected, first, FirstLine(s)), false, cap);
      TakeLine(s, n);
      GlueLine(selected, first, FirstLine(s), Take(Lines(AfterLine(s)), n - 1));
    } else {
      assert Take(Lines(s), n) == [] && Drop(Lines(s), n) == Lines(s);
    }
  }

  lemma {:induction false} BoundedLineFits(s: seq<byte>, limit: nat)
    requires s != []
    ensures |BoundedLine(s, limit).line| <= limit
  {
  }

  /** Line contents stay within the cap; separators come on top of it. */
  lemma {:induction false} ContentWithinCap(
    s: seq<byte>, n: nat, selected: seq<byte>, first: bool, cap: nat, separators: nat)
    requires |selected| <= cap + separators
    requires first ==> selected == []
    ensures var page := Select(s, n, selected, first, cap);
      |page.bytes| <= cap + separators + (if first && page.lines > 0 then page.lines - 1 else page.lines)
    decreases n
  {
    if n > 0 && s != [] {
      var limit := Remaining(selected, first, cap);
      BoundedLineFits(s, limit);
      var read := BoundedLine(s, limit);
      var more := Extended(selected, first, read.line);
      var used := separators + if first then 0 else 1;
      assert |more| <= cap + used;
      if !read.truncated {
        ContentWithinCap(read.left, n - 1, more, false, cap, used);
      }
    }
  }

  /** A page of one byte can hold three: separators are pushed even when nothing remains. */
  lemma {:induction false} SeparatorsExceedCap()
    ensures |Select([97, NL, NL, NL], 3, [], true, 1).bytes| == 3
  {
    var s: seq<byte> := [97, NL, NL, NL];
    assert s[1..] == [NL, NL, NL];
    assert LineEnd(s) == 1;
    assert s[2..] == [NL, NL] && s[2..][1..] == [NL];
  }

  // ---- Consecutive pages -------------------------------------------------------------------------

  /** The page for `n` lines after the first `start` lines. */
  function PageAt(s: seq<byte>, start: nat, n: nat, cap: nat): Page {
    Select(SkipLines(s, start), n, [], true, cap)
  }

  function LineCount(sizes: seq<nat>): nat {
    if sizes == [] then 0 else sizes[0] + LineCount(sizes[1..])
  }

  /** What the pages of consecutive requests of the given sizes hold. */
  function PageTexts(s: seq<byte>, start: nat, sizes: seq<nat>, cap: nat): seq<seq<byte>>
    decreases |sizes|
  {
    if sizes == [] then []
    else [PageAt(s, start, sizes[0], cap).bytes] + PageTexts(s, start + sizes[0], sizes[1..], cap)
  }

  predicate AllWhole(s: seq<byte>, start: nat, sizes: seq<nat>, cap: nat)
    decreases |sizes|
  {
    sizes == [] ||
    (!PageAt(s, start, sizes[0], cap).truncated && AllWhole(s, start + sizes[0], sizes[1..], cap))
  }

  lemma {:induction false} GlueAfter(a: seq<byte>, b: seq<byte>, first: bool, lines: seq<seq<byte>>)
    requires lines != [] || !first
    ensures Glue(a + b, first, lines) == a + Glue(b, first, lines)
    decreases |lines|
  {
    if lines != [] {
      assert Extended(a + b, first, lines[0]) == a + Extended(b, first, lines[0]);
      GlueAfter(a, Extended(b, first, lines[0]), false, lines[1..]);
    }
  }

  lemma {:induction false} GlueConcat(selected: seq<byte>, first: bool, a: seq<seq<byte>>, b: seq<seq<byte>>)
    requires a != []
    ensures Glue(selected, first, a + b) == Glue(Glue(selected, first, a), false, b)
    decreases |a|
  {
    var more := Extended(selected, first, a[0]);
    assert (a + b)[1..] == a[1..] + b;
    if |a| == 1 {
      assert a[1..] + b == b;
    } else {
      GlueConcat(more, false, a[1..], b);
    }
  }

  /** A block of lines glued on is one line glued on: its own join. */
  lemma {:induction false} GlueBlock(selected: seq<byte>, first: bool, a: seq<seq<byte>>)
    requires a != []
    requires first ==> selected == []
    ensures Glue(selected, first, a) == Extended(selected, first, Join(a))
  {
    var lead := if first then selected else selected + [NL];
    assert Extended(lead, true, a[0]) == Extended(selected, first, a[0]);
    assert Glue(selected, first, a) == Glue(lead, true, a);
    assert lead + [] == lead;
    GlueAfter(lead, [], true, a);
  }

  predicate Positive(sizes: seq<nat>) {
    forall i :: 0 <= i < |sizes| ==> sizes[i] > 0
  }

  /** An untruncated page is those of the lines it asks for that are there. */
  lemma {:induction false} PageIsLines(s: seq<byte>, start: nat, n: nat, cap: nat)
    requires !PageAt(s, start, n, cap).truncated
    ensures PageAt(s, start, n, cap).bytes == Join(Take(Drop(Lines(s), start), n))
  {
    LinesAfterSkip(s, start);
    UntruncatedPage(SkipLines(s, start), n, [], true, cap);
  }

  lemma {:induction false} TakeSplits<T>(s: seq<T>, start: nat, n: nat, m: nat)
    ensures Take(Drop(s, start), n + m) == Take(Drop(s, start), n) + Take(Drop(s, start + n), m)
  {
  }

  /** How many of the requests begin where no line is. */
  function PastEnd(total: nat, start: nat, sizes: seq<nat>): nat
    decreases |sizes|
  {
    if sizes == [] then 0
    else (if start < total then 0 else 1) + PastEnd(total, start + sizes[0], sizes[1..])
  }

  function Newlines(n: nat): seq<byte> {
    seq(n, _ => NL)
  }

  /** The newlines that empty pages add; the first page on nothing adds none. */
  function Surplus(total: nat, start: nat, sizes: seq<nat>, first: bool): nat {
    if first && sizes != [] then PastEnd(total, start + sizes[0], sizes[1..]) else PastEnd(total, start, sizes)
  }

  /** The page holds lines: gluing it on and then the others is gluing on all the lines. */
  lemma {:induction false} PageGlue(
    selected: seq<byte>, first: bool, block: seq<seq<byte>>, others: seq<seq<byte>>, texts: seq<seq<byte>>, n: nat)
    requires block != []
    requires first ==> selected == []
    requires Glue(Extended(selected, first, Join(block)), false, texts) ==
             Glue(Extended(selected, first, Join(block)), false, others) + Newlines(n)
    ensures Glue(selected, first, [Join(block)] + texts) == Glue(selected, first, block + others) + Newlines(n)
  {
    GlueLine(selected, first, Join(block), texts);
    GlueConcat(selected, first, block, others);
    GlueBlock(selected, first, block);
  }

  /** The page is empty, and so is what is asked for from there on. */
  lemma {:induction false} EmptyPageGlue(selected: seq<byte>, first: bool, texts: seq<seq<byte>>, n: nat)
    requires first ==> selected == []
    requires Glue(Extended(selected, first, []), false, texts) == Extended(selected, first, []) + Newlines(n)
    ensures Glue(selected, first, [[]] + texts) == selected + Newlines(if first then n else n + 1)
  {
    GlueLine(selected, first, [], texts);
    assert selected + [NL] + [] + Newlines(n) == selected + Newlines(n + 1);
  }

  lemma {:induction false} PageThenOthers(
    selected: seq<byte>, first: bool, lines: seq<seq<byte>>, start: nat, n: nat, m: nat, texts: seq<seq<byte>>, k: nat)
    requires n > 0 && (first ==> selected == [])
    requires var more := Extended(selected, first, Join(Take(Drop(lines, start), n)));
      Glue(more, false, texts) == Glue(more, false, Take(Drop(lines, start + n), m)) + Newlines(k)
    ensures Glue(selected, first, [Join(Take(Drop(lines, start), n))] + texts) ==
            Glue(selected, first, Take(Drop(lines, start), n + m)) +
            Newlines(if first || start < |lines| then k else k + 1)
  {
    var block, others := Take(Drop(lines, start), n), Take(Drop(lines, start + n), m);
    TakeSplits(lines, start, n, m);
    if start < |lines| {
      PageGlue(selected, first, block, others, texts, k);
    } else {
      assert block == [] && others == [] && block + others == [];
      EmptyPageGlue(selected, first, texts, k);
    }
  }

  /** The lines of consecutive requests, each joined. */
  function Blocks(lines: seq<seq<byte>>, start: nat, sizes: seq<nat>): seq<seq<byte>>
    decreases |sizes|
  {
    if sizes == [] then []
    else [Join(Take(Drop(lines, start), sizes[0]))] + Blocks(lines, start + sizes[0], sizes[1..])
  }

  lemma {:induction false} BlocksCons(lines: seq<seq<byte>>, start: nat, sizes: seq<nat>, first: bool)
    requires sizes != []
    ensures var n, rest := sizes[0], sizes[1..];
      && Blocks(lines, start, sizes) == [Join(Take(Drop(lines, start), n))] + Blocks(lines, start + n, rest)
      && LineCount(sizes) == n + LineCount(rest)
      && Surplus(|lines|, start, sizes, first) ==
         Surplus(|lines|, start + n, rest, false) + if first || start < |lines| then 0 else 1
  {
  }

  lemma {:induction false} BlocksGlue(
    lines: seq<seq<byte>>, start: nat, sizes: seq<nat>, selected: seq<byte>, first: bool)
    requires Positive(sizes) && (first ==> selected == [])
    ensures Glue(selected, first, Blocks(lines, start, sizes)) ==
            Glue(selected, first, Take(Drop(lines, start), LineCount(sizes))) +
            Newlines(Surplus(|lines|, start, sizes, first))
    decreases |sizes|
  {
    if sizes == [] {
      assert Take(Drop(lines, start), 0) == [];
    } else {
      var n, rest := sizes[0], sizes[1..];
      var more := Extended(selected, first, Join(Take(Drop(lines, start), n)));
      BlocksGlue(lines, start + n, rest, more, false);
      BlocksCons(lines, start, sizes, first);
      PageThenOthers(selected, first, lines, start, n, LineCount(rest), Blocks(lines, start + n, rest),
                     Surplus(|lines|, start + n, rest, false));
    }
  }

  lemma {:induction false} PagesAreBlocks(s: seq<byte>, start: nat, sizes: seq<nat>, cap: nat)
    requires AllWhole(s, start, sizes, cap)
    ensures PageTexts(s, start, sizes, cap) == Blocks(Lines(s), start, sizes)
    decreases |sizes|
  {
    if sizes != [] {
      PageIsLines(s, start, sizes[0], cap);
      PagesAreBlocks(s, start + sizes[0], sizes[1..], cap);
    }
  }

  /**
   * Untruncated pages of consecutive requests, joined by newlines, are those of the requested lines that are
   * there, joined, and a newline for each request after the first that begins past the last line. So the pages
   * reassemble exactly when none does.
   */
  lemma {:induction false} PagesReassemble(s: seq<byte>, start: nat, sizes: seq<nat>, cap: nat)
    requires Positive(sizes) && AllWhole(s, start, sizes, cap)
    ensures var lines := Join(Take(Drop(Lines(s), start), LineCount(sizes)));
      && Join(PageTexts(s, start, sizes, cap)) == lines + Newlines(Surplus(|Lines(s)|, start, sizes, true))
      && (Join(PageTexts(s, start, sizes, cap)) == lines <==>
          sizes == [] || PastEnd(|Lines(s)|, start + sizes[0], sizes[1..]) == 0)
  {
    PagesAreBlocks(s, start, sizes, cap);
    BlocksGlue(Lines(s), start, sizes, [], true);
  }

  // ---- When a page is cut short, and when there is more ----------------------------------------------

  /** Line `i`, terminator aside, is longer than what the lines before it leave of the cap. */
  ghost predicate Overflows(s: seq<byte>, i: nat, selected: seq<byte>, first: bool, cap: nat) {
    && i < |Lines(s)|
    && LineEnd(SkipLines(s, i)) > Remaining(Glue(selected, first, Lines(s)[..i]), first && i == 0, cap)
  }

  lemma {:induction false} OverflowsLater(s: seq<byte>, i: nat, selected: seq<byte>, first: bool, cap: nat)
    requires s != [] && i > 0
    ensures Overflows(s, i, selected, first, cap) <==>
            Overflows(AfterLine(s), i - 1, Extended(selected, first, FirstLine(s)), false, cap)
  {
    var rest := Lines(AfterLine(s));
    assert |Lines(s)| == 1 + |rest|;
    if i - 1 < |rest| {
      assert Lines(s)[..i] == [FirstLine(s)] + rest[..i - 1];
      GlueLine(selected, first, FirstLine(s), rest[..i - 1]);
    }
  }

  lemma {:induction false} OverflowsFirst(s: seq<byte>, n: nat, selected: seq<byte>, first: bool, cap: nat)
    requires n > 0 && s != []
    ensures Select(s, n, selected, first, cap).truncated <==>
            || Overflows(s, 0, selected, first, cap)
            || Select(AfterLine(s), n - 1, Extended(selected, first, FirstLine(s)), false, cap).truncated
  {
    assert Lines(s)[..0] == [];
  }

  lemma {:induction false} OverflowsShift(s: seq<byte>, n: nat, selected: seq<byte>, first: bool, cap: nat)
    requires n > 0 && s != []
    ensures (exists i :: 0 <= i < n && Overflows(s, i, selected, first, cap)) <==>
            || Overflows(s, 0, selected, first, cap)
            || exists i :: 0 <= i < n - 1 &&
                 Overflows(AfterLine(s), i, Extended(selected, first, FirstLine(s)), false, cap)
  {
    var more := Extended(selected, first, FirstLine(s));
    if i :| 0 <= i < n && Overflows(s, i, selected, first, cap) {
      if i > 0 {
        OverflowsLater(s, i, selected, first, cap);
      }
    }
    if i :| 0 <= i < n - 1 && Overflows(AfterLine(s), i, more, false, cap) {
      OverflowsLater(s, i + 1, selected, first, cap);
    }
  }

  lemma {:induction false} TruncatedStep(s: seq<byte>, n: nat, selected: seq<byte>, first: bool, cap: nat)
    requires n > 0 && s != []
    requires var more := Extended(selected, first, FirstLine(s));
      Select(AfterLine(s), n - 1, more, false, cap).truncated <==>
      exists i :: 0 <= i < n - 1 && Overflows(AfterLine(s), i, more, false, cap)
    ensures Select(s, n, selected, first, cap).truncated <==>
            exists i :: 0 <= i < n && Overflows(s, i, selected, first, cap)
  {
    OverflowsFirst(s, n, selected, first, cap);
    OverflowsShift(s, n, selected, first, cap);
  }

  lemma {:induction false} TruncatedIff(s: seq<byte>, n: nat, selected: seq<byte>, first: bool, cap: nat)
    ensures Select(s, n, selected, first, cap).truncated <==>
            exists i :: 0 <= i < n && Overflows(s, i, selected, first, cap)
    decreases n
  {
    if n > 0 && s != [] {
      TruncatedIff(AfterLine(s), n - 1, Extended(selected, first, FirstLine(s)), false, cap);
      TruncatedStep(s, n, selected, first, cap);
    } else {
      assert !Select(s, n, selected, first, cap).truncated;
    }
  }

  predicate HasMore(page: Page) {
    page.truncated || page.left != []
  }

  lemma {:induction false} HasMoreIff(s: seq<byte>, n: nat, cap: nat)
    ensures var page := Select(s, n, [], true, cap);
      HasMore(page) <==> page.truncated || |Lines(s)| > n
  {
    var page := Select(s, n, [], true, cap);
    if !page.truncated {
      UntruncatedPage(s, n, [], true, cap);
      assert page.left == [] <==> Lines(page.left) == [];
    }
  }

  // ---- Reading to the end ------------------------------------------------------------------------------

  /** Consecutive untruncated pages, of which exactly the last announces no more. */
  predicate ReadsToEnd(s: seq<byte>, start: nat, sizes: seq<nat>, cap: nat)
    decreases |sizes|
  {
    && sizes != [] && !PageAt(s, start, sizes[0], cap).truncated
    && (HasMore(PageAt(s, start, sizes[0], cap)) <==> |sizes| > 1)
    && (|sizes| > 1 ==> ReadsToEnd(s, start + sizes[0], sizes[1..], cap))
  }

  lemma {:induction false} MoreAt(s: seq<byte>, start: nat, n: nat, cap: nat)
    requires !PageAt(s, start, n, cap).truncated
    ensures HasMore(PageAt(s, start, n, cap)) <==> start + n < |Lines(s)|
  {
    LinesAfterSkip(s, start);
    HasMoreIff(SkipLines(s, start), n, cap);
  }

  /** Of these requests exactly the last asks for the last line or more. */
  predicate Covers(total: nat, start: nat, sizes: seq<nat>)
    decreases |sizes|
  {
    && sizes != [] && (start + sizes[0] < total <==> |sizes| > 1)
    && (|sizes| > 1 ==> Covers(total, start + sizes[0], sizes[1..]))
  }

  lemma {:induction false} ReadingCovers(s: seq<byte>, start: nat, sizes: seq<nat>, cap: nat)
    requires ReadsToEnd(s, start, sizes, cap)
    ensures AllWhole(s, start, sizes, cap) && Covers(|Lines(s)|, start, sizes)
    decreases |sizes|
  {
    MoreAt(s, start, sizes[0], cap);
    if |sizes| > 1 {
      ReadingCovers(s, start + sizes[0], sizes[1..], cap);
    }
  }

  /** Such requests ask for all the lines, and every one but the first for a line that is there. */
  lemma {:induction false} CoversAll(total: nat, start: nat, sizes: seq<nat>)
    requires Covers(total, start, sizes)
    ensures start + LineCount(sizes) >= total
    ensures PastEnd(total, start + sizes[0], sizes[1..]) == 0
    decreases |sizes|
  {
    if |sizes| > 1 {
      CoversAll(total, start + sizes[0], sizes[1..]);
    }
  }

  /** The newline a text ends with, which no line holds. */
  function LastNewline(s: seq<byte>): seq<byte> {
    if s != [] && s[|s| - 1] == NL then [NL] else []
  }

  /** A text put together again from its lines. */
  function Rejoined(s: seq<byte>): seq<byte> {
    Join(Lines(s)) + LastNewline(s)
  }

  predicate NoReturns(s: seq<byte>) {
    forall i :: 0 <= i < |s| - 1 ==> !(s[i] == CR && s[i + 1] == NL)
  }

  lemma {:induction false} RejoinedStep(s: seq<byte>)
    requires LineEnd(s) < |s|
    ensures Rejoined(s) == FirstLine(s) + [NL] + Rejoined(AfterLine(s))
  {
    var first, rest := FirstLine(s), AfterLine(s);
    LineEndIs(s);
    GlueLine([], true, first, Lines(rest));
    assert [] + first == first;
    if rest == [] {
      assert LineEnd(s) == |s| - 1;
      assert Rejoined(s) == first + [NL] + [];
    } else {
      assert rest[|rest| - 1] == s[|s| - 1];
      GlueBlock(first, false, Lines(rest));
    }
  }

  lemma {:induction false} ReturnsSplit(s: seq<byte>)
    requires LineEnd(s) < |s|
    ensures NoReturns(s) <==> FirstLine(s) == s[..LineEnd(s)] && NoReturns(AfterLine(s))
  {
    var n, rest := LineEnd(s), AfterLine(s);
    LineEndIs(s);
    assert forall i :: 0 <= i < |rest| ==> rest[i] == s[n + 1 + i];
    if NoReturns(s) {
      forall i | 0 <= i < |rest| - 1 ensures !(rest[i] == CR && rest[i + 1] == NL) {
        assert !(s[n + 1 + i] == CR && s[n + 1 + i + 1] == NL);
      }
    } else {
      var i :| 0 <= i < |s| - 1 && s[i] == CR && s[i + 1] == NL;
      if i > n {
        assert rest[i - n - 1] == CR && rest[i - n - 1 + 1] == NL;
      }
    }
  }

  lemma {:induction false} WholeIff(line: seq<byte>, raw: seq<byte>, again: seq<byte>, rest: seq<byte>)
    requires line <= raw && |again| <= |rest|
    ensures line + [NL] + again == raw + [NL] + rest <==> line == raw && again == rest
  {
    var a, b := line + [NL] + again, raw + [NL] + rest;
    if a == b {
      assert |line| == |raw|;
      assert a[|line| + 1..] == again && b[|raw| + 1..] == rest;
    }
  }

  lemma {:induction false} OneLineRejoined(s: seq<byte>)
    requires LineEnd(s) == |s|
    ensures Rejoined(s) == s && NoReturns(s)
  {
    LineEndIs(s);
    if s != [] {
      assert AfterLine(s) == [] && Lines(s) == [s];
      assert Glue([], true, [s]) == Glue(s, false, []);
    }
  }

  lemma {:induction false} RejoinedIff(s: seq<byte>, again: seq<byte>)
    requires LineEnd(s) < |s| && |again| <= |AfterLine(s)|
    requires again == AfterLine(s) <==> NoReturns(AfterLine(s))
    ensures var all := FirstLine(s) + [NL] + again; |all| <= |s| && (all == s <==> NoReturns(s))
  {
    LineEndIs(s);
    ReturnsSplit(s);
    assert s == s[..LineEnd(s)] + [NL] + AfterLine(s);
    WholeIff(FirstLine(s), s[..LineEnd(s)], again, AfterLine(s));
  }

  /** A text comes back from its lines exactly when no newline in it follows a carriage return. */
  lemma {:induction false} LinesGiveBackIff(s: seq<byte>, again: seq<byte>)
    requires again == Rejoined(s)
    ensures again == s <==> NoReturns(s)
    ensures |again| <= |s|
    decreases |s|
  {
    if LineEnd(s) < |s| {
      LinesGiveBackIff(AfterLine(s), Rejoined(AfterLine(s)));
      RejoinedStep(s);
      RejoinedIff(s, Rejoined(AfterLine(s)));
    } else {
      OneLineRejoined(s);
    }
  }

  lemma {:induction false} AllLines(s: seq<byte>, sizes: seq<nat>, cap: nat)
    requires Positive(sizes) && ReadsToEnd(s, 0, sizes, cap)
    ensures Join(PageTexts(s, 0, sizes, cap)) == Join(Lines(s))
  {
    ReadingCovers(s, 0, sizes, cap);
    CoversAll(|Lines(s)|, 0, sizes);
    PagesReassemble(s, 0, sizes, cap);
    assert Take(Drop(Lines(s), 0), LineCount(sizes)) == Lines(s);
  }

  /**
   * Paging until nothing more is announced gives all the lines; and so, with the newline the text ends in, the
   * text itself, exactly when no newline in it follows a carriage return.
   */
  lemma {:induction false} PagingGivesAll(s: seq<byte>, sizes: seq<nat>, cap: nat)
    requires Positive(sizes) && ReadsToEnd(s, 0, sizes, cap)
    ensures Join(PageTexts(s, 0, sizes, cap)) == Join(Lines(s))
    ensures Join(PageTexts(s, 0, sizes, cap)) + LastNewline(s) == s <==> NoReturns(s)
  {
    AllLines(s, sizes, cap);
    LinesGiveBackIff(s, Rejoined(s));
  }

  // ---- When a page exceeds its cap -----------------------------------------------------------------------

  /** The first `i` lines already fill the cap. */
  predicate Full(s: seq<byte>, i: nat, selected: seq<byte>, first: bool, cap: nat) {
    |Glue(selected, first, Take(Lines(s), i))| >= cap
  }

  lemma {:induction false} FullLater(s: seq<byte>, i: nat, selected: seq<byte>, first: bool, cap: nat)
    requires s != [] && i > 0
    ensures Full(s, i, selected, first, cap) <==>
            Full(AfterLine(s), i - 1, Extended(selected, first, FirstLine(s)), false, cap)
  {
    TakeLine(s, i);
    GlueLine(selected, first, FirstLine(s), Take(Lines(AfterLine(s)), i - 1));
  }

  /** One more line stays within the cap exactly when no separator came with it or the cap was not yet reached. */
  lemma {:induction false} ExtendedWithin(s: seq<byte>, selected: seq<byte>, first: bool, cap: nat)
    requires s != [] && |selected| <= cap && (first ==> selected == [])
    ensures var line := BoundedLine(s, Remaining(selected, first, cap)).line;
      |Extended(selected, first, line)| <= cap <==> first || |selected| < cap
  {
    BoundedLineFits(s, Remaining(selected, first, cap));
  }

  lemma {:induction false} SelectionGrows(s: seq<byte>, n: nat, selected: seq<byte>, first: bool, cap: nat)
    ensures |selected| <= |Select(s, n, selected, first, cap).bytes|
    decreases n
  {
    if n > 0 && s != [] {
      SelectStep(s, n, selected, first, cap);
      if LineEnd(s) <= Remaining(selected, first, cap) {
        SelectionGrows(AfterLine(s), n - 1, Extended(selected, first, FirstLine(s)), false, cap);
      }
    }
  }

  /** Before one of the next `lines` lines, a separator is due and the cap already full. */
  predicate Crowded(s: seq<byte>, lines: nat, selected: seq<byte>, first: bool, cap: nat)
    decreases lines
  {
    && lines > 0 && s != []
    && (|| (!first && |selected| >= cap)
        || Crowded(AfterLine(s), lines - 1, Extended(selected, first, FirstLine(s)), false, cap))
  }

  lemma {:induction false} FullShift(s: seq<byte>, lines: nat, selected: seq<byte>, first: bool, cap: nat)
    requires s != [] && lines > 0
    ensures (exists i :: (if first then 1 else 0) <= i < lines && Full(s, i, selected, first, cap)) <==>
            || (!first && |selected| >= cap)
            || exists i :: 0 <= i < lines - 1 &&
                 Full(AfterLine(s), i, Extended(selected, first, FirstLine(s)), false, cap)
  {
    var more := Extended(selected, first, FirstLine(s));
    assert Take(Lines(s), 0) == [];
    assert Full(s, 0, selected, first, cap) <==> |selected| >= cap;
    if i :| (if first then 1 else 0) <= i < lines && Full(s, i, selected, first, cap) {
      if i > 0 {
        FullLater(s, i, selected, first, cap);
      }
    }
    if i :| 0 <= i < lines - 1 && Full(AfterLine(s), i, more, false, cap) {
      FullLater(s, i + 1, selected, first, cap);
    }
  }

  lemma {:induction false} CrowdedIff(s: seq<byte>, lines: nat, selected: seq<byte>, first: bool, cap: nat)
    requires lines <= |Lines(s)|
    ensures Crowded(s, lines, selected, first, cap) <==>
            exists i :: (if first then 1 else 0) <= i < lines && Full(s, i, selected, first, cap)
    decreases lines
  {
    if lines > 0 {
      CrowdedIff(AfterLine(s), lines - 1, Extended(selected, first, FirstLine(s)), false, cap);
      FullShift(s, lines, selected, first, cap);
    }
  }

  /** The page is cut in its first line. */
  lemma {:induction false} CutWithinCapIff(
    s: seq<byte>, n: nat, selected: seq<byte>, first: bool, cap: nat, page: Page, crowded: bool)
    requires n > 0 && s != [] && LineEnd(s) > Remaining(selected, first, cap)
    requires |selected| <= cap && (first ==> selected == []) && page == Select(s, n, selected, first, cap)
    requires crowded == Crowded(s, page.lines, selected, first, cap)
    ensures |page.bytes| <= cap <==> !crowded
  {
    SelectStep(s, n, selected, first, cap);
    ExtendedWithin(s, selected, first, cap);
  }

  /** The page holds its first line whole, and `rest` is the page from there. */
  lemma {:induction false} WholeWithinCapIff(
    s: seq<byte>, n: nat, selected: seq<byte>, first: bool, cap: nat, page: Page, crowded: bool,
    more: seq<byte>, rest: Page, crowdedRest: bool)
    requires n > 0 && s != [] && LineEnd(s) <= Remaining(selected, first, cap)
    requires |selected| <= cap && (first ==> selected == []) && page == Select(s, n, selected, first, cap)
    requires crowded == Crowded(s, page.lines, selected, first, cap)
    requires more == Extended(selected, first, FirstLine(s)) && rest == Select(AfterLine(s), n - 1, more, false, cap)
    requires crowdedRest == Crowded(AfterLine(s), rest.lines, more, false, cap)
    requires |more| <= cap && (|rest.bytes| <= cap <==> !crowdedRest)
    ensures |page.bytes| <= cap <==> !crowded
  {
    SelectStep(s, n, selected, first, cap);
    ExtendedWithin(s, selected, first, cap);
  }

  /** The first line whole is already too much, for its separator. */
  lemma {:induction false} BeyondCap(
    s: seq<byte>, n: nat, selected: seq<byte>, first: bool, cap: nat, page: Page, crowded: bool)
    requires n > 0 && s != [] && LineEnd(s) <= Remaining(selected, first, cap)
    requires |selected| <= cap && (first ==> selected == []) && |Extended(selected, first, FirstLine(s))| > cap
    requires page == Select(s, n, selected, first, cap) && crowded == Crowded(s, page.lines, selected, first, cap)
    ensures |page.bytes| > cap && crowded
  {
    SelectStep(s, n, selected, first, cap);
    ExtendedWithin(s, selected, first, cap);
    SelectionGrows(AfterLine(s), n - 1, Extended(selected, first, FirstLine(s)), false, cap);
  }

  lemma {:induction false} NothingWithinCap(
    s: seq<byte>, n: nat, selected: seq<byte>, first: bool, cap: nat, page: Page, crowded: bool)
    requires (n == 0 || s == []) && |selected| <= cap && page == Select(s, n, selected, first, cap)
    requires crowded == Crowded(s, page.lines, selected, first, cap)
    ensures |page.bytes| <= cap && !crowded
  {
  }

  lemma {:induction false} WithinCapIff(
    s: seq<byte>, n: nat, selected: seq<byte>, first: bool, cap: nat, page: Page, crowded: bool)
    requires |selected| <= cap && (first ==> selected == []) && page == Select(s, n, selected, first, cap)
    requires crowded == Crowded(s, page.lines, selected, first, cap)
    ensures |page.bytes| <= cap <==> !crowded
    decreases n, 1
  {
    if n == 0 || s == [] {
      NothingWithinCap(s, n, selected, first, cap, page, crowded);
    } else if LineEnd(s) > Remaining(selected, first, cap) {
      CutWithinCapIff(s, n, selected, first, cap, page, crowded);
    } else if |Extended(selected, first, FirstLine(s))| <= cap {
      WholeLineIff(s, n, selected, first, cap, page, crowded);
    } else {
      BeyondCap(s, n, selected, first, cap, page, crowded);
    }
  }

  lemma {:induction false} WholeLineIff(
    s: seq<byte>, n: nat, selected: seq<byte>, first: bool, cap: nat, page: Page, crowded: bool)
    requires n > 0 && s != [] && LineEnd(s) <= Remaining(selected, first, cap)
    requires |selected| <= cap && (first ==> selected == []) && |Extended(selected, first, FirstLine(s))| <= cap
    requires page == Select(s, n, selected, first, cap) && crowded == Crowded(s, page.lines, selected, first, cap)
    ensures |page.bytes| <= cap <==> !crowded
    decreases n, 0
  {
    var more := Extended(selected, first, FirstLine(s));
    var rest := Select(AfterLine(s), n - 1, more, false, cap);
    var crowdedRest := Crowded(AfterLine(s), rest.lines, more, false, cap);
    WithinCapIff(AfterLine(s), n - 1, more, false, cap, rest, crowdedRest);
    WholeWithinCapIff(s, n, selected, first, cap, page, crowded, more, rest, crowdedRest);
  }

  /** Line `i` is there, and no line before it overflows. */
  ghost predicate Reached(s: seq<byte>, i: nat, selected: seq<byte>, first: bool, cap: nat) {
    i < |Lines(s)| && forall j :: 0 <= j < i ==> !Overflows(s, j, selected, first, cap)
  }

  /** A page holds one line if it is cut in its first, else one more than the page from the second. */
  lemma {:induction false} LinesOfPage(s: seq<byte>, n: nat, selected: seq<byte>, first: bool, cap: nat)
    requires n > 0 && s != []
    ensures Select(s, n, selected, first, cap).lines ==
            if LineEnd(s) > Remaining(selected, first, cap) then 1
            else Select(AfterLine(s), n - 1, Extended(selected, first, FirstLine(s)), false, cap).lines + 1
  {
    SelectStep(s, n, selected, first, cap);
  }

  lemma {:induction false} NoneOverflowShift(s: seq<byte>, selected: seq<byte>, first: bool, cap: nat, i: nat)
    requires s != [] && i > 0
    ensures (forall j :: 0 <= j < i ==> !Overflows(s, j, selected, first, cap)) <==>
            && !Overflows(s, 0, selected, first, cap)
            && forall j :: 0 <= j < i - 1 ==>
                 !Overflows(AfterLine(s), j, Extended(selected, first, FirstLine(s)), false, cap)
  {
    OverflowsShift(s, i, selected, first, cap);
  }

  /** A line is reached if it is the first, or the first does not overflow and it is reached from there. */
  lemma {:induction false} ReachedLater(s: seq<byte>, selected: seq<byte>, first: bool, cap: nat, i: nat)
    requires s != []
    ensures Reached(s, i, selected, first, cap) <==>
            || i == 0
            || (&& LineEnd(s) <= Remaining(selected, first, cap)
                && Reached(AfterLine(s), i - 1, Extended(selected, first, FirstLine(s)), false, cap))
  {
    assert Lines(s)[..0] == [];
    assert Overflows(s, 0, selected, first, cap) <==> LineEnd(s) > Remaining(selected, first, cap);
    if i > 0 {
      NoneOverflowShift(s, selected, first, cap, i);
    }
  }

  /** A page gets as far as line `i` exactly when that line is asked for and no line before it overflows. */
  lemma {:induction false} PageReaches(s: seq<byte>, n: nat, selected: seq<byte>, first: bool, cap: nat, i: nat)
    ensures i < Select(s, n, selected, first, cap).lines <==>
            i < n && Reached(s, i, selected, first, cap)
    decreases n
  {
    if n > 0 && s != [] {
      var more := Extended(selected, first, FirstLine(s));
      LinesOfPage(s, n, selected, first, cap);
      if i > 0 && LineEnd(s) <= Remaining(selected, first, cap) {
        PageReaches(AfterLine(s), n - 1, more, false, cap, i - 1);
      }
      ReachedLater(s, selected, first, cap, i);
    }
  }

  lemma {:induction false} PageLines(s: seq<byte>, n: nat, selected: seq<byte>, first: bool, cap: nat)
    ensures Select(s, n, selected, first, cap).lines <= |Lines(s)|
  {
    var lines := Select(s, n, selected, first, cap).lines;
    if lines > 0 {
      PageReaches(s, n, selected, first, cap, lines - 1);
    }
  }

  /**
   A page exceeds its byte cap exactly when some line after the first is asked for, is there, is not cut off
   by a line before it that overflows, and has lines before it that already fill the cap.
   */
  lemma {:induction false} PageWithinCapIff(s: seq<byte>, n: nat, cap: nat)
    ensures |Select(s, n, [], true, cap).bytes| > cap <==>
            exists i :: 0 < i < n && Reached(s, i, [], true, cap) && |Join(Take(Lines(s), i))| >= cap
  {
    var page := Select(s, n, [], true, cap);
    WithinCapIff(s, n, [], true, cap, page, Crowded(s, page.lines, [], true, cap));
    PageLines(s, n, [], true, cap);
    CrowdedIff(s, page.lines, [], true, cap);
    assert forall i: nat :: Full(s, i, [], true, cap) <==> |Join(Take(Lines(s), i))| >= cap;
    forall i: nat ensures i < page.lines <==> i < n && Reached(s, i, [], true, cap) {
      PageReaches(s, n, [], true, cap, i);
    }
  }
}
