/** Finding the one executable fenced block of a model's answer. */
module AgentFence {
  import opened Common

  /** White space, as the text library classifies it. */
  type Space = char -> bool

  // ---- Lines and trimming ------------------------------------------------------------------------------

  function LineEnd(s: string): (n: nat)
    ensures n <= |s|
  {
    if s == [] || s[0] == '\n' then 0 else 1 + LineEnd(s[1..])
  }

  function WithoutReturn(line: string): string {
    if line != [] && line[|line| - 1] == '\r' then line[..|line| - 1] else line
  }

  function Lines(text: string): seq<string>
    decreases |text|
  {
    if text == [] then []
    else
      var n := LineEnd(text);
      if n == |text| then [text] else [WithoutReturn(text[..n])] + Lines(text[n + 1..])
  }

  function Join(lines: seq<string>): string {
    if lines == [] then [] else if |lines| == 1 then lines[0] else lines[0] + "\n" + Join(lines[1..])
  }

  function TrimStart(space: Space, s: string): string {
    if s != [] && space(s[0]) then TrimStart(space, s[1..]) else s
  }

  function TrimEnd(space: Space, s: string): string {
    if s != [] && space(s[|s| - 1]) then TrimEnd(space, s[..|s| - 1]) else s
  }

  function Trim(space: Space, s: string): string {
    TrimEnd(space, TrimStart(space, s))
  }

  predicate AllSpace(space: Space, s: string) {
    forall i :: 0 <= i < |s| ==> space(s[i])
  }

  /** What is left of a text without the white space around it. */
  ghost predicate Trims(space: Space, s: string, t: string) {
    && (exists a, b :: s == a + t + b && AllSpace(space, a) && AllSpace(space, b))
    && (t != [] ==> !space(t[0]) && !space(t[|t| - 1]))
  }

  lemma {:induction false} TrimStartSplits(space: Space, s: string) returns (a: string)
    ensures s == a + TrimStart(space, s) && AllSpace(space, a)
    ensures TrimStart(space, s) != [] ==> !space(TrimStart(space, s)[0])
  {
    if s != [] && space(s[0]) {
      var rest := TrimStartSplits(space, s[1..]);
      a := [s[0]] + rest;
    } else {
      a := [];
    }
  }

  lemma {:induction false} TrimEndSplits(space: Space, s: string) returns (b: string)
    ensures s == TrimEnd(space, s) + b && AllSpace(space, b)
    ensures TrimEnd(space, s) != [] ==> !space(TrimEnd(space, s)[|TrimEnd(space, s)| - 1])
  {
    if s != [] && space(s[|s| - 1]) {
      var rest := TrimEndSplits(space, s[..|s| - 1]);
      b := rest + [s[|s| - 1]];
    } else {
      b := [];
    }
  }

  lemma {:induction false} TrimStartOf(space: Space, a: string, t: string)
    requires AllSpace(space, a) && (t != [] ==> !space(t[0]))
    ensures TrimStart(space, a + t) == t
  {
    if a == [] {
      assert a + t == t;
    } else {
      assert (a + t)[1..] == a[1..] + t;
      TrimStartOf(space, a[1..], t);
    }
  }

  lemma {:induction false} TrimEndOf(space: Space, t: string, b: string)
    requires AllSpace(space, b) && (t != [] ==> !space(t[|t| - 1]))
    ensures TrimEnd(space, t + b) == t
  {
    if b == [] {
      assert t + b == t;
    } else {
      assert (t + b)[..|t + b| - 1] == t + b[..|b| - 1];
      TrimEndOf(space, t, b[..|b| - 1]);
    }
  }

  lemma {:induction false} TrimmedSplits(space: Space, s: string)
    ensures Trims(space, s, Trim(space, s))
  {
    var a := TrimStartSplits(space, s);
    var rest := TrimStart(space, s);
    var b := TrimEndSplits(space, rest);
    var t := Trim(space, s);
    assert s == a + t + b;
    assert t != [] ==> t[0] == rest[0];
  }

  lemma {:induction false} TrimOf(space: Space, a: string, t: string, b: string)
    requires AllSpace(space, a) && AllSpace(space, b) && (t != [] ==> !space(t[0]) && !space(t[|t| - 1]))
    ensures Trim(space, a + t + b) == t
  {
    if t == [] {
      assert a + t + b == (a + b) + [] && AllSpace(space, a + b);
      TrimStartOf(space, a + b, []);
    } else {
      assert a + t + b == a + (t + b);
      TrimStartOf(space, a, t + b);
      TrimEndOf(space, t, b);
    }
  }

  /** Trimming gives exactly the text without the white space around it. */
  lemma {:induction false} TrimIff(space: Space, s: string, t: string)
    ensures Trim(space, s) == t <==> Trims(space, s, t)
  {
    TrimmedSplits(space, s);
    if Trims(space, s, t) {
      var a, b :| s == a + t + b && AllSpace(space, a) && AllSpace(space, b);
      TrimOf(space, a, t, b);
    }
  }

  lemma {:induction false} BlankIff(space: Space, s: string)
    ensures Trim(space, s) == [] <==> AllSpace(space, s)
  {
    TrimIff(space, s, []);
    if AllSpace(space, s) {
      assert s == s + [] + [] && AllSpace(space, []);
    }
    if Trims(space, s, []) {
      var a, b :| s == a + [] + b && AllSpace(space, a) && AllSpace(space, b);
      assert s == a + b;
    }
  }

  const FENCE := "```"

  /** The line begins with a fence once trimmed. */
  predicate Fences(space: Space, line: string) {
    FENCE <= Trim(space, line)
  }

  // ---- The answer by its fence lines -----------------------------------------------------------------------

  datatype Fault = EmptyBlock | MalformedClose | Unterminated | ManyBlocks

  /** The positions of the fence lines, in order. */
  function FenceLines(space: Space, lines: seq<string>): (r: seq<nat>)
    ensures forall i :: 0 <= i < |r| ==> r[i] < |lines| && Fences(space, lines[r[i]])
    ensures |r| >= 2 ==> r[0] < r[1]
  {
    if lines == [] then []
    else
      var n := |lines| - 1;
      FenceLines(space, lines[..n]) + if Fences(space, lines[n]) then [n] else []
  }

  function Content(space: Space, lines: seq<string>, open: nat, close: nat): string
    requires open < close <= |lines|
  {
    Trim(space, Join(lines[open + 1..close]))
  }

  /** Exactly one complete block: two fence lines, the second bare, with something between them. */
  predicate OneBlock(space: Space, lines: seq<string>) {
    var f := FenceLines(space, lines);
    |f| == 2 && Trim(space, lines[f[1]]) == FENCE && Content(space, lines, f[0], f[1]) != []
  }

  function Label(space: Space, line: string): string
    requires Fences(space, line)
  {
    Trim(space, line)[3..]
  }

  // ---- The scanner -----------------------------------------------------------------------------------------

  datatype Block = Block(name: string, code: string)

  datatype Scan = Scan(blocks: seq<Block>, current: Option<(string, seq<string>)>)

  function ScanLine(space: Space, scan: Scan, line: string): Result<Scan, Fault> {
    var marker := Trim(space, line);
    match scan.current
    case Some((name, body)) =>
      if marker == FENCE then
        var code := Trim(space, Join(body));
        if code == [] then Err(EmptyBlock) else Ok(Scan(scan.blocks + [Block(name, code)], None))
      else if FENCE <= marker then Err(MalformedClose)
      else Ok(scan.(current := Some((name, body + [line]))))
    case None =>
      if FENCE <= marker then Ok(scan.(current := Some((marker[3..], [])))) else Ok(scan)
  }

  /** The scanner after some lines, or the fault it stopped at. */
  function ScanLines(space: Space, lines: seq<string>): Result<Scan, Fault> {
    if lines == [] then Ok(Scan([], None))
    else
      match ScanLines(space, lines[..|lines| - 1])
      case Err(fault) => Err(fault)
      case Ok(scan) => ScanLine(space, scan, lines[|lines| - 1])
  }

  /** Fence lines that no complete block accounts for. */
  ghost predicate Broken(space: Space, lines: seq<string>) {
    |FenceLines(space, lines)| >= 2 && !OneBlock(space, lines)
  }

  ghost predicate Opened(space: Space, lines: seq<string>, current: Option<(string, seq<string>)>) {
    var f := FenceLines(space, lines);
    |f| == 1 ==> current == Some((Label(space, lines[f[0]]), lines[f[0] + 1..]))
  }

  ghost predicate Closed(space: Space, lines: seq<string>, blocks: seq<Block>) {
    var f := FenceLines(space, lines);
    |f| == 2 ==>
      OneBlock(space, lines) && blocks == [Block(Label(space, lines[f[0]]), Content(space, lines, f[0], f[1]))]
  }

  /** What the scanner holds after some lines, by their fence lines. */
  ghost predicate Reflects(space: Space, lines: seq<string>, r: Result<Scan, Fault>) {
    match r
    case Err(_) => Broken(space, lines)
    case Ok(scan) =>
      && |FenceLines(space, lines)| == 2 * |scan.blocks| + (if scan.current.Some? then 1 else 0)
      && Opened(space, lines, scan.current)
      && Closed(space, lines, scan.blocks)
  }

  lemma {:induction false} FenceLinesMore(space: Space, lines: seq<string>, line: string)
    ensures FenceLines(space, lines + [line]) ==
            FenceLines(space, lines) + if Fences(space, line) then [|lines|] else []
  {
    assert (lines + [line])[..|lines|] == lines;
  }

  lemma {:induction false} SameBlock(space: Space, lines: seq<string>, line: string)
    requires FenceLines(space, lines + [line]) == FenceLines(space, lines)
    requires |FenceLines(space, lines)| == 2
    ensures var f := FenceLines(space, lines);
      && (OneBlock(space, lines + [line]) <==> OneBlock(space, lines))
      && Content(space, lines + [line], f[0], f[1]) == Content(space, lines, f[0], f[1])
  {
    var f := FenceLines(space, lines);
    assert (lines + [line])[f[0] + 1..f[1]] == lines[f[0] + 1..f[1]];
  }

  lemma {:induction false} OpenedMore(space: Space, lines: seq<string>, line: string, name: string, body: seq<string>)
    requires FenceLines(space, lines + [line]) == FenceLines(space, lines)
    requires Opened(space, lines, Some((name, body)))
    ensures Opened(space, lines + [line], Some((name, body + [line])))
  {
    var f := FenceLines(space, lines);
    if |f| == 1 {
      assert (lines + [line])[f[0] + 1..] == lines[f[0] + 1..] + [line];
    }
  }

  lemma {:induction false} ProseReflects(space: Space, lines: seq<string>, line: string, r: Result<Scan, Fault>)
    requires Reflects(space, lines, r) && !Fences(space, line)
    requires FenceLines(space, lines + [line]) == FenceLines(space, lines)
    ensures Reflects(space, lines + [line], if r.Ok? then ScanLine(space, r.value, line) else r)
  {
    if |FenceLines(space, lines)| == 2 {
      SameBlock(space, lines, line);
    }
    if r.Ok? && r.value.current.Some? {
      var (name, body) := r.value.current.value;
      OpenedMore(space, lines, line, name, body);
    }
  }

  /** A third fence line, or a second that does not close anything, breaks the answer for good. */
  lemma {:induction false} BrokenByFence(space: Space, lines: seq<string>, line: string)
    requires FenceLines(space, lines + [line]) == FenceLines(space, lines) + [|lines|]
    requires |FenceLines(space, lines)| >= 2
    ensures Broken(space, lines + [line])
  {
  }

  lemma {:induction false} FirstFence(space: Space, lines: seq<string>, line: string)
    requires Fences(space, line) && FenceLines(space, lines + [line]) == [|lines|]
    ensures Opened(space, lines + [line], Some((Trim(space, line)[3..], [])))
  {
    assert (lines + [line])[|lines| + 1..] == [];
  }

  /** The second fence line closes a block with content exactly when it is bare and something is between. */
  lemma {:induction false} SecondFence(
    space: Space, lines: seq<string>, line: string, name: string, body: seq<string>)
    requires |FenceLines(space, lines)| == 1 && Opened(space, lines, Some((name, body)))
    requires FenceLines(space, lines + [line]) == FenceLines(space, lines) + [|lines|]
    ensures var code := Trim(space, Join(body));
      && (OneBlock(space, lines + [line]) <==> Trim(space, line) == FENCE && code != [])
      && (OneBlock(space, lines + [line]) ==> Closed(space, lines + [line], [Block(name, code)]))
  {
    var f := FenceLines(space, lines);
    assert (lines + [line])[f[0] + 1..|lines|] == lines[f[0] + 1..] == body;
  }

  lemma {:induction false} FenceReflects(space: Space, lines: seq<string>, line: string, r: Result<Scan, Fault>)
    requires Reflects(space, lines, r) && Fences(space, line)
    requires FenceLines(space, lines + [line]) == FenceLines(space, lines) + [|lines|]
    ensures Reflects(space, lines + [line], if r.Ok? then ScanLine(space, r.value, line) else r)
  {
    var f := FenceLines(space, lines);
    if |f| == 0 {
      FirstFence(space, lines, line);
    } else if |f| == 1 {
      var (name, body) := r.value.current.value;
      SecondFence(space, lines, line, name, body);
    } else {
      BrokenByFence(space, lines, line);
    }
  }

  lemma {:induction false} StepReflects(space: Space, lines: seq<string>, line: string, r: Result<Scan, Fault>)
    requires Reflects(space, lines, r)
    ensures Reflects(space, lines + [line], if r.Ok? then ScanLine(space, r.value, line) else r)
  {
    FenceLinesMore(space, lines, line);
    if Fences(space, line) {
      FenceReflects(space, lines, line, r);
    } else {
      ProseReflects(space, lines, line, r);
    }
  }

  lemma {:induction false} ScanReflects(space: Space, lines: seq<string>)
    ensures Reflects(space, lines, ScanLines(space, lines))
  {
    if lines != [] {
      var n := |lines| - 1;
      ScanReflects(space, lines[..n]);
      StepReflects(space, lines[..n], lines[n], ScanLines(space, lines[..n]));
      assert lines == lines[..n] + [lines[n]];
    }
  }

  // ---- The parser -----------------------------------------------------------------------------------------

  datatype Answer = Code(code: string) | Nothing | Refused

  /**
   * Code exactly when the text has one complete block and it is labelled `run`; nothing when it has
   * no fence line at all, or one complete block under another label; refused otherwise.
   */
  function AnswerOf(space: Space, lines: seq<string>): Answer {
    var f := FenceLines(space, lines);
    if f == [] then Nothing
    else if OneBlock(space, lines) then
      if Label(space, lines[f[0]]) == "run" then Code(Content(space, lines, f[0], f[1])) else Nothing
    else Refused
  }

  /** A fault on some lines is a fault on all. */
  lemma {:induction false} ScanStops(space: Space, lines: seq<string>, k: nat)
    requires k <= |lines| && ScanLines(space, lines[..k]).Err?
    ensures ScanLines(space, lines).Err? && FenceLines(space, lines) != [] && !OneBlock(space, lines)
    decreases |lines| - k
  {
    if k == |lines| {
      assert lines[..k] == lines;
      ScanReflects(space, lines);
    } else {
      assert lines[..k + 1][..k] == lines[..k];
      ScanStops(space, lines, k + 1);
    }
  }

  method ParseFenced(space: Space, text: string) returns (r: Result<Option<string>, Fault>)
    ensures match AnswerOf(space, Lines(text))
      case Code(code) => r == Ok(Some(code))
      case Nothing => r == Ok(None)
      case Refused => r.Err?
  {
    var lines := Lines(text);
    var blocks: seq<Block> := [];
    var current: Option<(string, seq<string>)> := None;
    for k := 0 to |lines|
      invariant ScanLines(space, lines[..k]) == Ok(Scan(blocks, current))
    {
      assert lines[..k + 1][..k] == lines[..k];
      var marker := Trim(space, lines[k]);
      ghost var next := ScanLine(space, Scan(blocks, current), lines[k]);
      assert ScanLines(space, lines[..k + 1]) == next;
      if current.Some? {
        var (name, body) := current.value;
        if marker == FENCE {
          var code := Trim(space, Join(body));
          if code == [] {
            ScanStops(space, lines, k + 1);
            return Err(EmptyBlock);
          }
          blocks, current := blocks + [Block(name, code)], None;
        } else if FENCE <= marker {
          ScanStops(space, lines, k + 1);
          return Err(MalformedClose);
        } else {
          current := Some((name, body + [lines[k]]));
        }
      } else if FENCE <= marker {
        current := Some((marker[3..], []));
      }
    }
    assert lines[..|lines|] == lines;
    ScanReflects(space, lines);
    if current.Some? {
      return Err(Unterminated);
    }
    if |blocks| == 0 {
      r := Ok(None);
    } else if |blocks| == 1 {
      r := Ok(if blocks[0].name == "run" then Some(blocks[0].code) else None);
    } else {
      r := Err(ManyBlocks);
    }
  }

  // ---- Printing and parsing back -------------------------------------------------------------------------

  /** Lines as a text, each ended by a newline, those so marked by a carriage return and a newline. */
  function Unlines(lines: seq<string>, crs: seq<bool>): string
    requires |crs| == |lines|
  {
    if lines == [] then []
    else lines[0] + (if crs[0] then "\r\n" else "\n") + Unlines(lines[1..], crs[1..])
  }

  /** A line that prints and reads back as itself. */
  predicate Plain(line: string) {
    '\n' !in line && (line != [] ==> line[|line| - 1] != '\r')
  }

  predicate AllPlain(lines: seq<string>) {
    forall i :: 0 <= i < |lines| ==> Plain(lines[i])
  }

  predicate FenceFree(space: Space, lines: seq<string>) {
    forall i :: 0 <= i < |lines| ==> !Fences(space, lines[i])
  }

  lemma {:induction false} LineEndOf(line: string, rest: string)
    requires '\n' !in line
    ensures LineEnd(line + "\n" + rest) == |line|
  {
    var s := line + "\n" + rest;
    if line != [] {
      LineEndOf(line[1..], rest);
      assert s[1..] == line[1..] + "\n" + rest;
    }
  }

  lemma {:induction false} FirstReadsBack(line: string, cr: bool, rest: string)
    requires Plain(line)
    ensures Lines(line + (if cr then "\r\n" else "\n") + rest) == [line] + Lines(rest)
  {
    var raw := line + if cr then "\r" else "";
    var text := line + (if cr then "\r\n" else "\n") + rest;
    assert text == raw + "\n" + rest;
    LineEndOf(raw, rest);
    assert text[..|raw|] == raw && text[|raw| + 1..] == rest;
    assert WithoutReturn(raw) == line by {
      assert cr ==> raw[..|raw| - 1] == line;
    }
  }

  lemma {:induction false} PrintedLinesReadBack(lines: seq<string>, crs: seq<bool>)
    requires AllPlain(lines) && |crs| == |lines|
    ensures Lines(Unlines(lines, crs)) == lines
  {
    if lines != [] {
      PrintedLinesReadBack(lines[1..], crs[1..]);
      assert Plain(lines[0]);
      FirstReadsBack(lines[0], crs[0], Unlines(lines[1..], crs[1..]));
    }
  }

  lemma {:induction false} NoLineEnd(line: string)
    requires '\n' !in line
    ensures LineEnd(line) == |line|
  {
    if line != [] {
      NoLineEnd(line[1..]);
    }
  }

  /** Joined lines are those lines again, unless an empty one is last. */
  lemma {:induction false} JoinedLinesReadBack(lines: seq<string>)
    requires AllPlain(lines) && (lines != [] ==> lines[|lines| - 1] != [])
    ensures Lines(Join(lines)) == lines
  {
    if |lines| == 1 {
      assert Plain(lines[0]);
      NoLineEnd(lines[0]);
    } else if lines != [] {
      JoinedLinesReadBack(lines[1..]);
      assert Plain(lines[0]);
      FirstReadsBack(lines[0], false, Join(lines[1..]));
    }
  }

  lemma {:induction false} NoMoreFences(space: Space, lines: seq<string>, prose: seq<string>)
    requires FenceFree(space, prose)
    ensures FenceLines(space, lines + prose) == FenceLines(space, lines)
  {
    if prose == [] {
      assert lines + prose == lines;
    } else {
      var n := |prose| - 1;
      assert lines + prose == (lines + prose[..n]) + [prose[n]];
      FenceLinesMore(space, lines + prose[..n], prose[n]);
      NoMoreFences(space, lines, prose[..n]);
    }
  }

  /** Prose, an opening line, code, a closing line and more prose. */
  function Printed(before: seq<string>, open: string, code: seq<string>, close: string, after: seq<string>)
    : seq<string>
  {
    before + [open] + code + [close] + after
  }

  lemma {:induction false} OneMoreFence(space: Space, lines: seq<string>, prose: seq<string>, line: string)
    requires FenceFree(space, prose) && Fences(space, line)
    ensures FenceLines(space, lines + prose + [line]) == FenceLines(space, lines) + [|lines| + |prose|]
  {
    NoMoreFences(space, lines, prose);
    FenceLinesMore(space, lines + prose, line);
  }

  /** Two fence lines with fence-free lines around and between. */
  lemma {:induction false} PrintedFences(
    space: Space, before: seq<string>, open: string, code: seq<string>, close: string, after: seq<string>)
    requires FenceFree(space, before) && FenceFree(space, code) && FenceFree(space, after)
    requires Fences(space, open) && Fences(space, close)
    ensures FenceLines(space, Printed(before, open, code, close, after)) == [|before|, |before| + 1 + |code|]
  {
    OneMoreFence(space, [], before, open);
    assert [] + before == before;
    OneMoreFence(space, before + [open], code, close);
    NoMoreFences(space, before + [open] + code + [close], after);
  }

  lemma {:induction false} PrintedAnswer(
    space: Space, lines: seq<string>, before: seq<string>, open: string, code: seq<string>, close: string,
    after: seq<string>, t: string)
    requires lines == Printed(before, open, code, close, after)
    requires FenceLines(space, lines) == [|before|, |before| + 1 + |code|]
    requires Trim(space, open) == "```run" && Trim(space, close) == FENCE && Trim(space, Join(code)) == t && t != []
    ensures AnswerOf(space, lines) == Code(t)
  {
    assert lines[|before| + 1..|before| + 1 + |code|] == code;
    assert lines[|before|] == open && lines[|before| + 1 + |code|] == close;
    assert Content(space, lines, |before|, |before| + 1 + |code|) == t;
  }

  lemma {:induction false} BlockIsCode(
    space: Space, before: seq<string>, open: string, code: seq<string>, close: string, after: seq<string>, t: string)
    requires FenceFree(space, before) && FenceFree(space, code) && FenceFree(space, after)
    requires Trims(space, open, "```run") && Trims(space, close, "```")
    requires Trims(space, Join(code), t) && t != []
    ensures AnswerOf(space, Printed(before, open, code, close, after)) == Code(t)
  {
    TrimIff(space, open, "```run");
    TrimIff(space, close, FENCE);
    TrimIff(space, Join(code), t);
    PrintedFences(space, before, open, code, close, after);
    PrintedAnswer(space, Printed(before, open, code, close, after), before, open, code, close, after, t);
  }

  /**
   * Fence-free prose, a run fence around fence-free code, and more prose parse back to the code without the white
   * space around it, whatever white space is around the fences and whether lines end with carriage returns or not.
   */
  lemma {:induction false} PrintedFenceParses(
    space: Space, before: seq<string>, open: string, code: seq<string>, close: string, after: seq<string>,
    crs: seq<bool>, t: string)
    requires FenceFree(space, before) && FenceFree(space, code) && FenceFree(space, after)
    requires AllPlain(Printed(before, open, code, close, after)) && |crs| == |Printed(before, open, code, close, after)|
    requires Trims(space, open, "```run") && Trims(space, close, "```")
    requires Trims(space, Join(code), t) && t != []
    ensures AnswerOf(space, Lines(Unlines(Printed(before, open, code, close, after), crs))) == Code(t)
  {
    PrintedLinesReadBack(Printed(before, open, code, close, after), crs);
    BlockIsCode(space, before, open, code, close, after, t);
  }

  lemma {:induction false} InOneMore(earlier: seq<nat>, n: nat, i: nat, more: bool)
    ensures i in (earlier + if more then [n] else []) <==> i in earlier || (more && i == n)
  {
  }

  lemma {:induction false} FenceLinesAre(space: Space, lines: seq<string>, i: nat)
    requires i < |lines|
    ensures i in FenceLines(space, lines) <==> Fences(space, lines[i])
  {
    var n := |lines| - 1;
    var earlier, last := lines[..n], lines[n];
    assert lines == earlier + [last];
    FenceLinesMore(space, earlier, last);
    if i < n {
      FenceLinesAre(space, earlier, i);
      InOneMore(FenceLines(space, earlier), n, i, Fences(space, last));
    } else {
      assert n !in FenceLines(space, earlier);
      InOneMore(FenceLines(space, earlier), n, i, Fences(space, last));
    }
  }

  /** The lines are prose, a run fence, code that is `t` but for white space around it, a bare fence, and prose. */
  ghost predicate HasRunBlock(space: Space, lines: seq<string>, t: string) {
    exists before, open, code, close, after ::
      && lines == Printed(before, open, code, close, after)
      && FenceFree(space, before) && FenceFree(space, code) && FenceFree(space, after)
      && Trims(space, open, "```run") && Trims(space, close, "```") && Trims(space, Join(code), t)
  }

  lemma {:induction false} AroundFences(space: Space, lines: seq<string>, i: nat, j: nat)
    requires FenceLines(space, lines) == [i, j] && i < j < |lines|
    ensures FenceFree(space, lines[..i]) && FenceFree(space, lines[i + 1..j]) && FenceFree(space, lines[j + 1..])
  {
    forall k | 0 <= k < |lines| && k != i && k != j
      ensures !Fences(space, lines[k])
    {
      FenceLinesAre(space, lines, k);
    }
  }

  lemma {:induction false} BlockTrims(space: Space, open: string, code: seq<string>, close: string, t: string)
    requires Fences(space, open) && Label(space, open) == "run"
    requires Trim(space, close) == FENCE && Trim(space, Join(code)) == t
    ensures Trims(space, open, "```run") && Trims(space, close, "```") && Trims(space, Join(code), t)
  {
    assert Trim(space, open) == FENCE + Label(space, open);
    TrimIff(space, open, "```run");
    TrimIff(space, close, "```");
    TrimIff(space, Join(code), t);
  }

  lemma {:induction false} CodeParts(space: Space, lines: seq<string>, t: string) returns (i: nat, j: nat)
    requires AnswerOf(space, lines) == Code(t)
    ensures i < j < |lines| && FenceLines(space, lines) == [i, j]
    ensures Fences(space, lines[i]) && Label(space, lines[i]) == "run"
    ensures Trim(space, lines[j]) == FENCE && Trim(space, Join(lines[i + 1..j])) == t
  {
    var f := FenceLines(space, lines);
    i, j := f[0], f[1];
  }

  lemma {:induction false} CodeHasBlock(space: Space, lines: seq<string>, t: string)
    requires AnswerOf(space, lines) == Code(t)
    ensures HasRunBlock(space, lines, t)
  {
    var i, j := CodeParts(space, lines, t);
    AroundFences(space, lines, i, j);
    BlockTrims(space, lines[i], lines[i + 1..j], lines[j], t);
    assert lines == Printed(lines[..i], lines[i], lines[i + 1..j], lines[j], lines[j + 1..]);
  }

  /** Code is found exactly when there are two fence lines, `run` and bare, and it is what stands between them. */
  lemma {:induction false} CodeIff(space: Space, lines: seq<string>, t: string)
    ensures AnswerOf(space, lines) == Code(t) <==> t != [] && HasRunBlock(space, lines, t)
  {
    if AnswerOf(space, lines) == Code(t) {
      CodeHasBlock(space, lines, t);
    }
    if t != [] && HasRunBlock(space, lines, t) {
      var before, open, code, close, after :|
        && lines == Printed(before, open, code, close, after)
        && FenceFree(space, before) && FenceFree(space, code) && FenceFree(space, after)
        && Trims(space, open, "```run") && Trims(space, close, "```") && Trims(space, Join(code), t);
      BlockIsCode(space, before, open, code, close, after, t);
    }
  }
}
