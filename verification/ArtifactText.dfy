/** Selecting a page of a stored text: the selector, the page, and its cut to whole characters. */
module ArtifactText {
  import opened Common
  import opened Decimals
  import opened Encoding
  import opened ArtifactPaging

  // ---- Characters, by section 4 of RFC 3629 ---------------------------------------------------------

  predicate Tail(s: seq<byte>, i: nat) {
    i < |s| && 0x80 <= s[i] <= 0xBF
  }

  predicate Between(s: seq<byte>, i: nat, low: byte, high: byte) {
    i < |s| && low <= s[i] <= high
  }

  /** The length of the character that `s` starts with, or 0 when it starts with none. */
  function CharLength(s: seq<byte>): (n: nat)
    ensures n <= 4 && n <= |s|
  {
    if s == [] then 0
    else if s[0] <= 0x7F then 1
    else if 0xC2 <= s[0] <= 0xDF then if Tail(s, 1) then 2 else 0
    else if 0xE0 <= s[0] <= 0xEF then
      var low: byte := if s[0] == 0xE0 then 0xA0 else 0x80;
      var high: byte := if s[0] == 0xED then 0x9F else 0xBF;
      if Between(s, 1, low, high) && Tail(s, 2) then 3 else 0
    else if 0xF0 <= s[0] <= 0xF4 then
      var low: byte := if s[0] == 0xF0 then 0x90 else 0x80;
      var high: byte := if s[0] == 0xF4 then 0x8F else 0xBF;
      if Between(s, 1, low, high) && Tail(s, 2) && Tail(s, 3) then 4 else 0
    else 0
  }

  /** The length of the longest prefix made of whole characters. */
  function ValidUpTo(s: seq<byte>): (n: nat)
    ensures n <= |s|
    decreases |s|
  {
    var n := CharLength(s);
    if n == 0 then 0 else n + ValidUpTo(s[n..])
  }

  /** How many bytes a cut to whole characters takes away. */
  function Lost(s: seq<byte>): nat {
    |s| - ValidUpTo(s)
  }

  predicate Utf8(s: seq<byte>) {
    Lost(s) == 0
  }

  lemma {:induction false} CharIsOne(c: char, rest: seq<byte>)
    ensures CharLength(CharBytes(c) + rest) == |CharBytes(c)|
  {
  }

  lemma {:induction false} Split(high: int, low: int)
    requires 0 <= low < 64
    ensures (high * 64 + low) / 64 == high && (high * 64 + low) % 64 == low
  {
  }

  lemma {:induction false} TwoBytes(s: seq<byte>) returns (c: char)
    requires CharLength(s) == 2
    ensures s[..2] == CharBytes(c)
  {
    var x: int, y: int := s[0] - 0xC0, s[1] - 0x80;
    Split(x, y);
    c := (x * 64 + y) as char;
  }

  lemma {:induction false} ThreeBytes(s: seq<byte>) returns (c: char)
    requires CharLength(s) == 3
    ensures s[..3] == CharBytes(c)
  {
    var x: int, y: int, z: int := s[0] - 0xE0, s[1] - 0x80, s[2] - 0x80;
    Split(x, y);
    Split(x * 64 + y, z);
    c := ((x * 64 + y) * 64 + z) as char;
  }

  lemma {:induction false} FourBytes(s: seq<byte>) returns (c: char)
    requires CharLength(s) == 4
    ensures s[..4] == CharBytes(c)
  {
    var x: int, y: int, z: int, w: int := s[0] - 0xF0, s[1] - 0x80, s[2] - 0x80, s[3] - 0x80;
    Split(x, y);
    Split(x * 64 + y, z);
    Split((x * 64 + y) * 64 + z, w);
    c := (((x * 64 + y) * 64 + z) * 64 + w) as char;
  }

  /** What a text starts with, when it starts with a character, is the encoding of one. */
  lemma {:induction false} OneIsChar(s: seq<byte>) returns (c: char)
    requires CharLength(s) > 0
    ensures s[..CharLength(s)] == CharBytes(c)
  {
    match CharLength(s)
    case 1 => c := s[0] as char;
    case 2 => c := TwoBytes(s);
    case 3 => c := ThreeBytes(s);
    case _ => c := FourBytes(s);
  }

  lemma {:induction false} EncodedIsText(t: string)
    ensures Utf8(TextBytes(t))
  {
    if t != [] {
      EncodedIsText(t[1..]);
      CharIsOne(t[0], TextBytes(t[1..]));
      assert TextBytes(t)[|CharBytes(t[0])|..] == TextBytes(t[1..]);
    }
  }

  lemma {:induction false} TextIsEncoded(s: seq<byte>) returns (t: string)
    requires Utf8(s)
    ensures s == TextBytes(t)
    decreases |s|
  {
    if s == [] {
      t := [];
    } else {
      var n := CharLength(s);
      var c := OneIsChar(s);
      var rest := TextIsEncoded(s[n..]);
      t := [c] + rest;
      assert t[1..] == rest && s == s[..n] + s[n..];
    }
  }

  /** Bytes are a text exactly when they are the encoding of some characters. */
  lemma {:induction false} Utf8Iff(s: seq<byte>)
    ensures Utf8(s) <==> exists t :: s == TextBytes(t)
  {
    if Utf8(s) {
      var t := TextIsEncoded(s);
    }
    forall t | s == TextBytes(t)
      ensures Utf8(s)
    {
      EncodedIsText(t);
    }
  }

  lemma {:induction false} CharOfPrefix(s: seq<byte>, k: nat)
    requires k <= |s|
    ensures CharLength(s) <= k ==> CharLength(s[..k]) == CharLength(s)
    ensures k < CharLength(s) ==> CharLength(s[..k]) == 0
  {
  }

  /** Cutting a text anywhere breaks at most its last character. */
  lemma {:induction false} CutLosesPartOfOneCharacter(s: seq<byte>, k: nat)
    requires Utf8(s) && k <= |s|
    ensures Lost(s[..k]) <= 3
    decreases |s|
  {
    var n := CharLength(s);
    CharOfPrefix(s, k);
    if 0 < n <= k {
      CutLosesPartOfOneCharacter(s[n..], k - n);
      assert s[..k][n..] == s[n..][..k - n];
    }
  }

  lemma {:induction false} AsciiStartsCharacter(s: seq<byte>, k: nat)
    requires 0 < k < |s| && s[k] < 0x80
    ensures CharLength(s) <= k
  {
  }

  /** A text cut before an ASCII byte is a text on both sides. */
  lemma {:induction false} CutAtAscii(s: seq<byte>, k: nat)
    requires Utf8(s) && k < |s| && s[k] < 0x80
    ensures Utf8(s[..k]) && Utf8(s[k..])
    decreases |s|
  {
    if k == 0 {
      assert s[0..] == s;
    } else {
      var n := CharLength(s);
      AsciiStartsCharacter(s, k);
      CharOfPrefix(s, k);
      CutAtAscii(s[n..], k - n);
      assert s[..k][n..] == s[n..][..k - n];
      assert s[n..][k - n..] == s[k..];
    }
  }

  lemma {:induction false} PrefixChar(a: seq<byte>, b: seq<byte>)
    requires CharLength(a) > 0
    ensures CharLength(a + b) == CharLength(a)
  {
    assert forall i :: 0 <= i < |a| ==> (a + b)[i] == a[i];
  }

  lemma {:induction false} ValidAfter(a: seq<byte>, b: seq<byte>)
    requires Utf8(a)
    ensures ValidUpTo(a + b) == |a| + ValidUpTo(b)
    decreases |a|
  {
    if a == [] {
      assert a + b == b;
    } else {
      var n := CharLength(a);
      PrefixChar(a, b);
      ValidAfter(a[n..], b);
      assert (a + b)[n..] == a[n..] + b;
    }
  }

  lemma {:induction false} AsciiChar(b: byte)
    requires b < 0x80
    ensures Utf8([b])
  {
    assert [b][1..] == [];
  }

  lemma {:induction false} FirstLineIsText(s: seq<byte>)
    requires Utf8(s) && s != []
    ensures Utf8(FirstLine(s)) && Utf8(AfterLine(s))
  {
    var k := LineEnd(s);
    LineEndIs(s);
    if k < |s| {
      CutAtAscii(s, k);
      assert CharLength(s[k..]) == 1 && s[k..][1..] == s[k + 1..];
      var line := s[..k];
      if line != [] && line[|line| - 1] == CR {
        CutAtAscii(line, |line| - 1);
      }
    }
  }

  lemma {:induction false} ExtendedText(selected: seq<byte>, first: bool, line: seq<byte>)
    requires Utf8(selected)
    ensures Lost(Extended(selected, first, line)) == Lost(line)
  {
    AsciiChar(NL);
    ValidAfter(selected, [NL]);
    ValidAfter(if first then selected else selected + [NL], line);
  }

  lemma {:induction false} LineOfText(s: seq<byte>, selected: seq<byte>, first: bool, limit: nat)
    requires Utf8(s) && Utf8(selected) && s != []
    ensures limit <= |s| ==> Lost(Extended(selected, first, s[..limit])) <= 3
    ensures Utf8(AfterLine(s)) && Utf8(Extended(selected, first, FirstLine(s)))
  {
    if limit <= |s| {
      CutLosesPartOfOneCharacter(s, limit);
      ExtendedText(selected, first, s[..limit]);
    }
    FirstLineIsText(s);
    ExtendedText(selected, first, FirstLine(s));
  }

  /** A page from which at most part of one character is to be cut away, and nothing if it is whole. */
  predicate NearlyText(page: Page) {
    Lost(page.bytes) <= 3 && (!page.truncated ==> Utf8(page.bytes))
  }

  ghost predicate SameText(a: Page, b: Page) {
    a.bytes == b.bytes && a.truncated == b.truncated && a.left == b.left
  }

  lemma {:induction false} SameTextNearly(a: Page, b: Page)
    requires SameText(a, b) && NearlyText(b)
    ensures NearlyText(a)
  {
  }

  lemma {:induction false} PageOfText(s: seq<byte>, n: nat, selected: seq<byte>, first: bool, cap: nat)
    requires Utf8(s) && Utf8(selected)
    ensures NearlyText(Select(s, n, selected, first, cap))
    decreases n
  {
    var page := Select(s, n, selected, first, cap);
    if n == 0 || s == [] {
      assert page == Page(selected, 0, false, s);
    } else if LineEnd(s) <= Remaining(selected, first, cap) {
      LineOfText(s, selected, first, 0);
      var more := Extended(selected, first, FirstLine(s));
      PageOfText(AfterLine(s), n - 1, more, false, cap);
      SelectStep(s, n, selected, first, cap);
      SameTextNearly(page, Select(AfterLine(s), n - 1, more, false, cap));
    } else {
      LineOfText(s, selected, first, Remaining(selected, first, cap));
      SelectStep(s, n, selected, first, cap);
    }
  }

  // ---- Selecting -----------------------------------------------------------------------------------

  datatype PageLimits = PageLimits(
    defaultLines: nat, defaultBytes: nat, maxLines: nat, maxBytes: nat)

  function SplitOnce(s: string): Option<(string, string)> {
    if s == [] then None
    else if s[0] == '-' then Some(([], s[1..]))
    else match SplitOnce(s[1..])
      case None => None
      case Some(parts) => Some(([s[0]] + parts.0, parts.1))
  }

  /** The first and last line wanted, counted from one; `None` is an invalid selector. */
  function ParseSelector(selector: Option<string>, limits: PageLimits): (r: Option<(nat, nat)>)
    ensures r.Some? && selector.Some? ==> 1 <= r.value.0 <= r.value.1 <= r.value.0 + limits.maxLines - 1
  {
    match selector
    case None => Some((1, limits.defaultLines))
    case Some(text) =>
      match SplitOnce(text)
      case None => None
      case Some((low, high)) =>
        match (ParseWord(low), ParseWord(high))
        case (Some(start), Some(end)) =>
          if start == 0 || end < start || end - start + 1 > limits.maxLines || end - start + 1 > U64_MAX then None
          else Some((start, end))
        case _ => None
  }

  lemma {:induction false} SplitOnceAt(a: string, b: string)
    requires '-' !in a
    ensures SplitOnce(a + "-" + b) == Some((a, b))
  {
    var s := a + "-" + b;
    if a == [] {
      assert s == "-" + b && s[1..] == b;
    } else {
      SplitOnceAt(a[1..], b);
      assert s[1..] == a[1..] + "-" + b && s[0] == a[0] != '-';
      assert [a[0]] + a[1..] == a;
    }
  }

  /** A printed range is accepted exactly when it is a nonempty range of lines within the limit. */
  lemma {:induction false} ParsePrintedRange(start: nat, end: nat, limits: PageLimits)
    requires start <= U64_MAX && end <= U64_MAX && limits.maxLines <= U64_MAX
    ensures ParseSelector(Some(Digits(start) + "-" + Digits(end)), limits) ==
            if 1 <= start <= end && end - start + 1 <= limits.maxLines then Some((start, end)) else None
  {
    ParsePrinted(start);
    ParsePrinted(end);
    DigitsValue(start);
    assert '-' !in Digits(start) by {
      assert forall c :: c in Digits(start) ==> IsDigit(c);
    }
    SplitOnceAt(Digits(start), Digits(end));
  }

  function CapFor(selector: Option<string>, limits: PageLimits): nat {
    if selector.Some? then limits.maxBytes else limits.defaultBytes
  }

  /** Skips lines, telling whether the text ended first. */
  method SkipTo(reader: BufReader, n: nat) returns (ended: bool)
    modifies reader
    ensures reader.rest == SkipLines(old(reader.rest), n)
    ensures ended ==> reader.rest == []
  {
    for i := 0 to n
      invariant SkipLines(reader.rest, n - i) == SkipLines(old(reader.rest), n)
    {
      var skipped := reader.SkipUntilNewline();
      if skipped == 0 {
        return true;
      }
    }
    ended := false;
  }

  method ReadPage(reader: BufReader, n: nat, cap: nat) returns (selected: seq<byte>, truncated: bool)
    modifies reader
    ensures var page := Select(old(reader.rest), n, [], true, cap);
      selected == page.bytes && truncated == page.truncated && reader.rest == page.left
  {
    selected, truncated := [], false;
    ghost var page := Select(reader.rest, n, [], true, cap);
    for taken := 0 to n
      invariant SameText(page, Select(reader.rest, n - taken, selected, taken == 0, cap))
    {
      ghost var rest := reader.rest;
      if rest != [] {
        SelectStep(rest, n - taken, selected, taken == 0, cap);
      }
      var line := reader.ReadBoundedLine(Remaining(selected, taken == 0, cap));
      if line == None {
        return;
      }
      if taken > 0 {
        selected := selected + [NL];
      }
      selected := selected + line.value.0;
      if line.value.1 {
        truncated := true;
        return;
      }
    }
  }

  function Answer(page: Page): (seq<byte>, bool) {
    (page.bytes[..ValidUpTo(page.bytes)], HasMore(page))
  }

  /** What a page request answers: the page cut to whole characters, and whether anything follows it. */
  function PageAnswer(file: seq<byte>, start: nat, end: nat, cap: nat): (seq<byte>, bool)
    requires 1 <= start <= end + 1
  {
    Answer(PageAt(file, start - 1, end + 1 - start, cap))
  }

  /** Reads a page, cuts it to whole characters and looks whether anything follows. */
  method AnswerPage(reader: BufReader, n: nat, cap: nat) returns (r: (seq<byte>, bool))
    modifies reader
    ensures r == Answer(Select(old(reader.rest), n, [], true, cap))
  {
    var selected, truncated := ReadPage(reader, n, cap);
    var buf := reader.FillBuf();
    r := (selected[..ValidUpTo(selected)], truncated || buf != []);
  }

  lemma {:induction false} NothingLeft(n: nat, cap: nat)
    ensures Answer(Select([], n, [], true, cap)) == ([], false)
  {
    assert Select([], n, [], true, cap) == Page([], 0, false, []);
  }

  method SkipAndAnswer(reader: BufReader, skip: nat, n: nat, cap: nat) returns (r: (seq<byte>, bool))
    modifies reader
    ensures r == Answer(Select(SkipLines(old(reader.rest), skip), n, [], true, cap))
  {
    var ended := SkipTo(reader, skip);
    if ended {
      NothingLeft(n, cap);
      return ([], false);
    }
    r := AnswerPage(reader, n, cap);
  }

  method PageText(file: seq<byte>, start: nat, end: nat, cap: nat) returns (r: (seq<byte>, bool))
    requires 1 <= start <= end + 1
    ensures r == PageAnswer(file, start, end, cap)
  {
    var reader := new BufReader(file);
    r := SkipAndAnswer(reader, start - 1, end + 1 - start, cap);
  }

  /** The page of a file that a selector names. */
  function Selected(file: seq<byte>, selector: Option<string>, limits: PageLimits): Option<(seq<byte>, bool)> {
    match ParseSelector(selector, limits)
    case None => None
    case Some((start, end)) => Some(PageAnswer(file, start, end, CapFor(selector, limits)))
  }

  /** The page a selector names; nothing when the selector is invalid. */
  method SelectText(file: seq<byte>, selector: Option<string>, limits: PageLimits)
    returns (r: Option<(seq<byte>, bool)>)
    ensures r == Selected(file, selector, limits)
    ensures selector == None ==> r == Some(PageAnswer(file, 1, limits.defaultLines, limits.defaultBytes))
    ensures selector.Some? ==>
      match ParseSelector(selector, limits)
      case None => r == None
      case Some((start, end)) => r == Some(PageAnswer(file, start, end, limits.maxBytes))
  {
    var range := ParseSelector(selector, limits);
    if range == None {
      return None;
    }
    var answer := PageText(file, range.value.0, range.value.1, CapFor(selector, limits));
    r := Some(answer);
  }
}
