/** The lexer: tokens with byte spans, under a token limit. */
module LangLexer {
  import opened Common
  import opened Decimals
  import opened LangBindings
  import opened LangTokens

  // ---- Where things end -----------------------------------------------------------------------------------

  function SpaceEnd(a: Alphabet, s: string, i: nat): (end: nat)
    requires i <= |s|
    ensures i <= end <= |s|
    decreases |s| - i
  {
    if i < |s| && a.space(s[i]) then SpaceEnd(a, s, i + 1) else i
  }

  function LineEnd(s: string, i: nat): (end: nat)
    requires i <= |s|
    ensures i <= end <= |s|
    decreases |s| - i
  {
    if i < |s| && s[i] != '\n' then LineEnd(s, i + 1) else i
  }

  function DigitsEnd(s: string, i: nat): (end: nat)
    requires i <= |s|
    ensures i <= end <= |s|
    ensures AllDigits(s[i..end])
    decreases |s| - i
  {
    if i < |s| && IsDigit(s[i]) then
      var end := DigitsEnd(s, i + 1);
      assert s[i..end] == [s[i]] + s[i + 1..end];
      end
    else i
  }

  function IdentEnd(a: Alphabet, s: string, i: nat): (end: nat)
    requires i <= |s|
    ensures i <= end <= |s|
    decreases |s| - i
  {
    if i < |s| && (s[i] == '_' || a.alphanumeric(s[i])) then IdentEnd(a, s, i + 1) else i
  }

  function UriEnd(a: Alphabet, s: string, i: nat): (end: nat)
    requires i <= |s|
    ensures i <= end <= |s|
    decreases |s| - i
  {
    if i < |s| && !a.space(s[i]) && s[i] !in ",;)]}" then UriEnd(a, s, i + 1) else i
  }

  /** The colon that ends a hyphenated scheme begun at `i`, if only its characters come before one. */
  function SchemeEnd(s: string, i: nat): (r: Option<nat>)
    requires i <= |s|
    ensures r.Some? ==> i <= r.value < |s| && s[r.value] == ':'
    decreases |s| - i
  {
    if i == |s| then None
    else if s[i] == ':' then Some(i)
    else if AsciiWord(s[i]) then SchemeEnd(s, i + 1)
    else None
  }

  /** The end of the rest of a hyphenated scheme, or `i` when there is none. */
  function HyphenatedEnd(s: string, i: nat): (end: nat)
    requires i <= |s|
    ensures i <= end <= |s|
  {
    if i < |s| && s[i] == '-' && SchemeEnd(s, i).Some? then SchemeEnd(s, i).value else i
  }

  /** The position after the quote that closes a string whose text goes on at `i`. */
  function StringEnd(s: string, i: nat, escaped: bool): (r: Option<nat>)
    requires i <= |s|
    ensures r.Some? ==> i < r.value <= |s|
    decreases |s| - i
  {
    if i == |s| then None
    else if s[i] == '"' && !escaped then Some(i + 1)
    else StringEnd(s, i + 1, s[i] == '\\' && !escaped)
  }

  /** The symbol at `i`, the longest there is. */
  function SymbolAt(s: string, i: nat): (r: Option<string>)
    requires i < |s|
    ensures r.Some? ==> r.value != [] && Follows(s, i, r.value)
  {
    if Follows(s, i, "...") then Some("...")
    else if Follows(s, i, "::") then Some("::")
    else if Follows(s, i, "|>") then Some("|>")
    else if Follows(s, i, "==") then Some("==")
    else if Follows(s, i, "!=") then Some("!=")
    else if Follows(s, i, "<=") then Some("<=")
    else if Follows(s, i, ">=") then Some(">=")
    else if Follows(s, i, "->") then Some("->")
    else if s[i] in "(){}[],;@+*/%.:|=<>-" then Some([s[i]])
    else None
  }

  // ---- One token --------------------------------------------------------------------------------------------

  datatype Lexeme = Lexeme(token: Token, end: nat)

  function NumberAt(s: string, i: nat): (r: Result<Lexeme, Fault>)
    requires i < |s| && IsDigit(s[i])
    ensures r.Ok? ==> i < r.value.end <= |s|
  {
    var n := DigitsEnd(s, i + 1);
    if n + 1 < |s| && s[n] == '.' && IsDigit(s[n + 1]) then
      var end := DigitsEnd(s, n + 1);
      Ok(Lexeme(Decimal(s[i..end]), end))
    else
      assert s[i..n] == [s[i]] + s[i + 1..n];
      var value := ValueOf(s[i..n]);
      if value <= I64_MAX then Ok(Lexeme(Int(value), n)) else Err(InvalidInteger)
  }

  /** What a name that stops at `m` is. */
  function NameTo(a: Alphabet, s: string, i: nat, inRecord: bool, m: nat): Lexeme
    requires i < m <= |s|
  {
    if !inRecord && m < |s| && s[m] == ':' then
      var end := UriEnd(a, s, m + 1);
      Lexeme(Uri(s[i..end]), end)
    else if a.uppercase(s[i]) then Lexeme(Upper(s[i..m]), m)
    else Lexeme(Ident(s[i..m]), m)
  }

  /** A name, or a URI when a colon follows it directly or after a hyphenated rest of its scheme. */
  function NameAt(a: Alphabet, s: string, i: nat, inRecord: bool): (r: Lexeme)
    requires i < |s|
    ensures i < r.end <= |s|
  {
    var n := IdentEnd(a, s, i + 1);
    NameTo(a, s, i, inRecord, if inRecord then n else HyphenatedEnd(s, n))
  }

  function StringAt(a: Alphabet, s: string, i: nat): (r: Result<Lexeme, Fault>)
    requires i < |s|
    ensures r.Ok? ==> i < r.value.end <= |s|
  {
    match StringEnd(s, i + 1, false)
    case None => Err(UnterminatedString)
    case Some(end) =>
      match a.decode(s[i..end])
      case None => Err(InvalidString)
      case Some(value) => Ok(Lexeme(Text(value), end))
  }

  function LexemeAt(a: Alphabet, s: string, i: nat, inRecord: bool): (r: Result<Lexeme, Fault>)
    requires i < |s|
    ensures r.Ok? ==> i < r.value.end <= |s|
  {
    if s[i] == '"' then StringAt(a, s, i)
    else if SymbolAt(s, i).Some? then Ok(Lexeme(Symbol(SymbolAt(s, i).value), i + |SymbolAt(s, i).value|))
    else if IsDigit(s[i]) then NumberAt(s, i)
    else if s[i] == '_' || a.alphabetic(s[i]) then Ok(NameAt(a, s, i, inRecord))
    else Err(UnsupportedCharacter)
  }

  // ---- What is skipped ---------------------------------------------------------------------------------------

  lemma {:induction false} SpaceExtent(a: Alphabet, s: string, i: nat)
    requires i <= |s|
    ensures Extent(a.space, s, i, SpaceEnd(a, s, i))
    decreases |s| - i
  {
    if i < |s| && a.space(s[i]) {
      SpaceExtent(a, s, i + 1);
    }
  }

  lemma {:induction false} LineExtent(s: string, i: nat)
    requires i <= |s|
    ensures Extent(InLine, s, i, LineEnd(s, i))
    decreases |s| - i
  {
    if i < |s| && s[i] != '\n' {
      LineExtent(s, i + 1);
    }
  }

  function LineStart(s: string, i: nat): (start: nat)
    requires i <= |s|
    ensures start <= i
  {
    if i > 0 && s[i - 1] != '\n' then LineStart(s, i - 1) else i
  }

  lemma {:induction false} LineStartBegins(s: string, i: nat)
    requires i <= |s|
    ensures LineBegins(s, LineStart(s, i), i)
  {
    if i > 0 && s[i - 1] != '\n' {
      LineStartBegins(s, i - 1);
    }
  }

  lemma {:induction false} LineBeginsOnce(s: string, b: nat, c: nat, i: nat)
    requires LineBegins(s, b, i) && LineBegins(s, c, i)
    ensures b == c
  {
  }

  lemma {:induction false} SpaceBeforeIff(a: Alphabet, s: string, i: nat, b: nat)
    requires LineBegins(s, b, i) && Extent(a.space, s, b, SpaceEnd(a, s, b))
    ensures SpaceEnd(a, s, b) >= i <==> OnlySpaceBefore(a, s, i)
  {
    if c: nat :| LineBegins(s, c, i) && AllSpace(a, s, c, i) {
      LineBeginsOnce(s, b, c, i);
    }
    if SpaceEnd(a, s, b) >= i {
      assert AllSpace(a, s, b, i);
    }
  }

  lemma {:induction false} SpaceAfterIff(a: Alphabet, s: string, i: nat, e: nat)
    requires i <= |s| && Extent(a.space, s, i, e) && Extent(InLine, s, i, LineEnd(s, i))
    ensures (e >= LineEnd(s, i) || Follows(s, e, "--")) <==> EndsLine(a, s, i)
  {
    if k: nat :| OnlySpaceOrComment(a, s, i, k) {
      ExtentUnique(a.space, s, i, e, k);
    }
    if e >= LineEnd(s, i) {
      var n := LineEnd(s, i);
      assert i <= n <= e && (n == |s| || s[n] == '\n');
    }
    if e >= LineEnd(s, i) || Follows(s, e, "--") {
      assert OnlySpaceOrComment(a, s, i, e);
    }
  }

  /** A line of three dashes, with space at most before them, and after them space or a comment. */
  predicate LegacySeparatorAt(a: Alphabet, s: string, i: nat)
    requires i <= |s|
  {
    && Follows(s, i, "---")
    && SpaceEnd(a, s, LineStart(s, i)) >= i
    && (SpaceEnd(a, s, i + 3) >= LineEnd(s, i + 3) || Follows(s, SpaceEnd(a, s, i + 3), "--"))
  }

  /** The separator is recognised exactly where three dashes are alone on their line. */
  lemma {:induction false} SeparatorIff(a: Alphabet, s: string, i: nat)
    requires i <= |s|
    ensures LegacySeparatorAt(a, s, i) <==> Separates(a, s, i)
  {
    if Follows(s, i, "---") {
      var b, e := LineStart(s, i), SpaceEnd(a, s, i + 3);
      LineStartBegins(s, i);
      SpaceExtent(a, s, b);
      SpaceExtent(a, s, i + 3);
      LineExtent(s, i + 3);
      SpaceBeforeIff(a, s, i, b);
      SpaceAfterIff(a, s, i + 3, e);
    }
  }

  // ---- Each token is the longest there is -------------------------------------------------------------------

  lemma {:induction false} DigitsExtent(s: string, i: nat)
    requires i <= |s|
    ensures Extent(IsDigit, s, i, DigitsEnd(s, i))
    decreases |s| - i
  {
    if i < |s| && IsDigit(s[i]) {
      DigitsExtent(s, i + 1);
    }
  }

  lemma {:induction false} IdentExtent(a: Alphabet, s: string, i: nat)
    requires i <= |s|
    ensures Extent(IdentChar(a), s, i, IdentEnd(a, s, i))
    decreases |s| - i
  {
    if i < |s| && IdentChar(a)(s[i]) {
      IdentExtent(a, s, i + 1);
    }
  }

  lemma {:induction false} UriExtent(a: Alphabet, s: string, i: nat)
    requires i <= |s|
    ensures Extent(UriChar(a), s, i, UriEnd(a, s, i))
    decreases |s| - i
  {
    if i < |s| && UriChar(a)(s[i]) {
      UriExtent(a, s, i + 1);
    }
  }

  lemma {:induction false} SameLength(s: string, i: nat, t: string, u: string)
    requires Follows(s, i, t) && Follows(s, i, u) && |t| == |u|
    ensures t == u
  {
  }

  lemma {:induction false} SymbolIsLongest(s: string, i: nat)
    requires i < |s| && SymbolAt(s, i).Some?
    ensures LongestSymbol(s, i, SymbolAt(s, i).value)
  {
    var t := SymbolAt(s, i).value;
    assert |t| == 1 ==> s[i] == t[0] && t == [s[i]];
    forall u | u in SYMBOLS && Follows(s, i, u) ensures |u| <= |t| {
      if |u| > 1 {
        assert s[i] == s[i..i + |u|][0] && s[i + 1] == s[i..i + |u|][1];
      }
    }
  }

  lemma {:induction false} OneCharacter(s: string, i: nat, t: string)
    requires i < |s| && |t| == 1
    ensures Follows(s, i, t) <==> s[i] == t[0]
  {
    assert s[i..i + 1] == [s[i]];
  }

  lemma {:induction false} NothingStands(s: string, i: nat)
    requires i < |s| && SymbolAt(s, i) == None
    ensures NoSymbol(s, i)
  {
    forall u | u in SYMBOLS ensures !Follows(s, i, u) {
      if |u| == 1 {
        OneCharacter(s, i, u);
      }
    }
  }

  /** The symbol found is the longest, and one is found exactly when one stands there. */
  lemma {:induction false} SymbolIff(s: string, i: nat, t: string)
    requires i < |s|
    ensures SymbolAt(s, i) == Some(t) <==> LongestSymbol(s, i, t)
    ensures SymbolAt(s, i) == None <==> NoSymbol(s, i)
  {
    var r := SymbolAt(s, i);
    if r.Some? {
      SymbolIsLongest(s, i);
      if LongestSymbol(s, i, t) {
        SameLength(s, i, t, r.value);
      }
    } else {
      NothingStands(s, i);
    }
  }

  lemma {:induction false} StringEndFrom(s: string, from: nat, i: nat, k: nat)
    requires from <= i <= |s|
    ensures StringEnd(s, i, Escaped(s, from, i)) == Some(k) <==>
            && i < k <= |s| && s[k - 1] == '"' && !Escaped(s, from, k - 1)
            && (forall j :: i <= j < k - 1 && s[j] == '"' ==> Escaped(s, from, j))
    decreases |s| - i
  {
    if i < |s| && (s[i] != '"' || Escaped(s, from, i)) {
      assert Escaped(s, from, i + 1) == (s[i] == '\\' && !Escaped(s, from, i));
      StringEndFrom(s, from, i + 1, k);
    }
  }

  lemma {:induction false} StringEndIff(s: string, i: nat, k: nat)
    requires i <= |s|
    ensures StringEnd(s, i, false) == Some(k) <==> Closes(s, i, k)
  {
    StringEndFrom(s, i, i, k);
  }

  lemma {:induction false} SchemeEndIff(s: string, n: nat, i: nat, c: nat)
    requires n < i <= |s| && s[n] == '-' && forall j :: n <= j < i ==> AsciiWord(s[j])
    ensures SchemeEnd(s, i) == Some(c) <==> i <= c && SchemeTo(s, n, c)
    decreases |s| - i
  {
    if i < |s| && s[i] != ':' && AsciiWord(s[i]) {
      SchemeEndIff(s, n, i + 1, c);
    }
  }

  lemma {:induction false} HyphenatedStop(s: string, n: nat, m: nat)
    requires n <= |s|
    ensures HyphenatedEnd(s, n) == m <==> SchemeStop(s, n, m)
  {
    if n < |s| && s[n] == '-' {
      forall c: nat ensures SchemeEnd(s, n) == Some(c) <==> SchemeTo(s, n, c) {
        SchemeEndIff(s, n, n + 1, c);
      }
    }
  }

  lemma {:induction false} DecimalIff(a: Alphabet, s: string, i: nat, inRecord: bool, token: Token, n: nat, k: nat)
    requires i < n <= |s| && Extent(IsDigit, s, i, n) && PointDigit(s, n)
    requires Extent(IsDigit, s, n + 1, DigitsEnd(s, n + 1))
    ensures (token.Int? || token.Decimal?) && LexesAs(a, s, i, inRecord, token, k) <==>
            k == DigitsEnd(s, n + 1) && token == Decimal(s[i..k])
  {
    var end := DigitsEnd(s, n + 1);
    if token.Int? && LexesAs(a, s, i, inRecord, token, k) {
      ExtentUnique(IsDigit, s, i, n, k);
    }
    if token.Decimal? && LexesAs(a, s, i, inRecord, token, k) {
      var m: nat :| PointAt(s, i, m, k);
      ExtentUnique(IsDigit, s, i, n, m);
      ExtentUnique(IsDigit, s, n + 1, k, end);
    }
    assert PointAt(s, i, n, end);
  }

  lemma {:induction false} IntIff(a: Alphabet, s: string, i: nat, inRecord: bool, token: Token, n: nat, k: nat)
    requires i < n <= |s| && Extent(IsDigit, s, i, n) && !PointDigit(s, n) && AllDigits(s[i..n])
    ensures (token.Int? || token.Decimal?) && LexesAs(a, s, i, inRecord, token, k) <==>
            k == n && ValueOf(s[i..n]) <= I64_MAX && token == Int(ValueOf(s[i..n]))
  {
    if token.Int? && LexesAs(a, s, i, inRecord, token, k) {
      ExtentUnique(IsDigit, s, i, n, k);
    }
    if token.Decimal? && LexesAs(a, s, i, inRecord, token, k) {
      var m: nat :| PointAt(s, i, m, k);
      ExtentUnique(IsDigit, s, i, n, m);
    }
  }

  lemma {:induction false} NumberIff(a: Alphabet, s: string, i: nat, inRecord: bool, token: Token, k: nat)
    requires i < |s| && IsDigit(s[i])
    ensures NumberAt(s, i) == Ok(Lexeme(token, k)) <==>
            (token.Int? || token.Decimal?) && LexesAs(a, s, i, inRecord, token, k)
  {
    var n := DigitsEnd(s, i + 1);
    DigitsExtent(s, i);
    assert DigitsEnd(s, i) == n && Extent(IsDigit, s, i, n);
    assert s[i..n] == [s[i]] + s[i + 1..n];
    if PointDigit(s, n) {
      var end := DigitsEnd(s, n + 1);
      DigitsExtent(s, n + 1);
      assert NumberAt(s, i) == Ok(Lexeme(Decimal(s[i..end]), end));
      DecimalIff(a, s, i, inRecord, token, n, k);
    } else {
      var value := ValueOf(s[i..n]);
      assert NumberAt(s, i) == if value <= I64_MAX then Ok(Lexeme(Int(value), n)) else Err(InvalidInteger);
      IntIff(a, s, i, inRecord, token, n, k);
    }
  }

  predicate IsNameToken(token: Token) {
    token.Uri? || token.Upper? || token.Ident?
  }

  lemma {:induction false} StopsIff(a: Alphabet, s: string, i: nat, inRecord: bool, m: nat)
    requires i < |s|
    ensures NameStops(a, s, i, inRecord, m) <==>
            var n := IdentEnd(a, s, i + 1); m == if inRecord then n else HyphenatedEnd(s, n)
  {
    var n := IdentEnd(a, s, i + 1);
    IdentExtent(a, s, i + 1);
    HyphenatedStop(s, n, m);
    if NameStops(a, s, i, inRecord, m) {
      var n': nat :| StopsFrom(a, s, i, inRecord, n', m);
      ExtentUnique(IdentChar(a), s, i + 1, n, n');
    } else {
      assert !StopsFrom(a, s, i, inRecord, n, m);
    }
  }

  lemma {:induction false} UriIff(a: Alphabet, s: string, i: nat, m: nat, k: nat)
    requires i < |s| && NameStops(a, s, i, false, m) && forall x: nat :: NameStops(a, s, i, false, x) ==> x == m
    ensures (exists x: nat :: NameStops(a, s, i, false, x) && ColonThen(a, s, x, k)) <==>
            m < |s| && s[m] == ':' && k == UriEnd(a, s, m + 1)
  {
    if m < |s| && s[m] == ':' {
      UriExtent(a, s, m + 1);
      if ColonThen(a, s, m, k) {
        ExtentUnique(UriChar(a), s, m + 1, k, UriEnd(a, s, m + 1));
      }
    }
  }

  ghost predicate StopsOnlyAt(a: Alphabet, s: string, i: nat, inRecord: bool, m: nat)
    requires i < |s|
  {
    forall x: nat :: NameStops(a, s, i, inRecord, x) <==> x == m
  }

  lemma {:induction false} UriTokenIff(
    a: Alphabet, s: string, i: nat, inRecord: bool, m: nat, text: string, k: nat)
    requires i < m <= |s| && NameStart(a, s, i) && StopsOnlyAt(a, s, i, inRecord, m)
    ensures LexesAs(a, s, i, inRecord, Uri(text), k) <==>
            !inRecord && m < |s| && s[m] == ':' && k == UriEnd(a, s, m + 1) && text == s[i..k]
  {
    if !inRecord {
      UriIff(a, s, i, m, k);
    }
  }

  lemma {:induction false} PlainNameIff(a: Alphabet, s: string, i: nat, inRecord: bool, m: nat, k: nat)
    requires i < m <= |s| && NameStart(a, s, i) && StopsOnlyAt(a, s, i, inRecord, m)
    ensures IsName(a, s, i, inRecord, k) <==> k == m && (inRecord || m == |s| || s[m] != ':')
  {
  }

  lemma {:induction false} StopsOnly(a: Alphabet, s: string, i: nat, inRecord: bool)
    requires i < |s|
    ensures var n := IdentEnd(a, s, i + 1);
      StopsOnlyAt(a, s, i, inRecord, if inRecord then n else HyphenatedEnd(s, n))
  {
    var n := IdentEnd(a, s, i + 1);
    forall x: nat
      ensures NameStops(a, s, i, inRecord, x) <==> x == if inRecord then n else HyphenatedEnd(s, n)
    {
      StopsIff(a, s, i, inRecord, x);
    }
  }

  lemma {:induction false} NameToIff(
    a: Alphabet, s: string, i: nat, inRecord: bool, m: nat, token: Token, k: nat)
    requires i < m <= |s| && NameStart(a, s, i) && StopsOnlyAt(a, s, i, inRecord, m)
    ensures NameTo(a, s, i, inRecord, m) == Lexeme(token, k) <==>
            IsNameToken(token) && LexesAs(a, s, i, inRecord, token, k)
  {
    if token.Uri? {
      UriTokenIff(a, s, i, inRecord, m, token.uri, k);
    } else if IsNameToken(token) {
      PlainNameIff(a, s, i, inRecord, m, k);
    }
  }

  lemma {:induction false} NameIff(a: Alphabet, s: string, i: nat, inRecord: bool, token: Token, k: nat)
    requires i < |s| && NameStart(a, s, i)
    ensures NameAt(a, s, i, inRecord) == Lexeme(token, k) <==>
            IsNameToken(token) && LexesAs(a, s, i, inRecord, token, k)
  {
    var n := IdentEnd(a, s, i + 1);
    StopsOnly(a, s, i, inRecord);
    NameToIff(a, s, i, inRecord, if inRecord then n else HyphenatedEnd(s, n), token, k);
  }

  lemma {:induction false} StringIff(a: Alphabet, s: string, i: nat, inRecord: bool, token: Token, k: nat)
    requires i < |s| && s[i] == '"'
    ensures StringAt(a, s, i) == Ok(Lexeme(token, k)) <==> token.Text? && LexesAs(a, s, i, inRecord, token, k)
  {
    StringEndIff(s, i + 1, k);
  }

  lemma {:induction false} FollowsFirst(s: string, i: nat, t: string)
    requires i < |s| && t != []
    ensures Follows(s, i, t) ==> s[i] == t[0]
  {
    if Follows(s, i, t) {
      assert s[i..i + |t|][0] == s[i];
    }
  }

  lemma {:induction false} SymbolStarts(s: string, i: nat)
    requires i < |s|
    ensures SymbolAt(s, i).Some? ==> s[i] in "(){}[],;@+*/%.:|=<>-!"
  {
    FollowsFirst(s, i, "...");
    FollowsFirst(s, i, "::");
    FollowsFirst(s, i, "|>");
    FollowsFirst(s, i, "==");
    FollowsFirst(s, i, "!=");
    FollowsFirst(s, i, "<=");
    FollowsFirst(s, i, ">=");
    FollowsFirst(s, i, "->");
  }

  /** No symbol begins with a quote or a digit. */
  lemma {:induction false} NoSymbolHere(s: string, i: nat)
    requires i < |s| && (s[i] == '"' || IsDigit(s[i]))
    ensures SymbolAt(s, i) == None && NoSymbol(s, i)
  {
    SymbolStarts(s, i);
    SymbolIff(s, i, []);
  }

  lemma {:induction false} NumberStarts(a: Alphabet, s: string, i: nat, inRecord: bool, token: Token, k: nat)
    requires LexesAs(a, s, i, inRecord, token, k) && (token.Int? || token.Decimal?)
    ensures IsDigit(s[i])
  {
    if token.Decimal? {
      var n: nat :| PointAt(s, i, n, k);
    }
  }

  /** The first character decides what kind of token it can be. */
  lemma {:induction false} FirstDecides(a: Alphabet, s: string, i: nat, inRecord: bool, token: Token, k: nat)
    requires LexesAs(a, s, i, inRecord, token, k)
    ensures token.Text? <==> s[i] == '"'
    ensures token.Symbol? <==> SymbolAt(s, i).Some?
    ensures token.Int? || token.Decimal? <==> IsDigit(s[i])
    ensures IsNameToken(token) ==> s[i] == '_' || a.alphabetic(s[i])
  {
    if s[i] == '"' || IsDigit(s[i]) {
      NoSymbolHere(s, i);
    }
    match token
    case Symbol(t) => SymbolIff(s, i, t);
    case Int(_) => NumberStarts(a, s, i, inRecord, token, k);
    case Decimal(_) => NumberStarts(a, s, i, inRecord, token, k);
    case Text(_) =>
    case _ => SymbolIff(s, i, []);
  }

  lemma {:induction false} StringLexemeIff(a: Alphabet, s: string, i: nat, inRecord: bool, token: Token, k: nat)
    requires i < |s| && s[i] == '"'
    ensures LexemeAt(a, s, i, inRecord) == Ok(Lexeme(token, k)) <==> LexesAs(a, s, i, inRecord, token, k)
  {
    if LexesAs(a, s, i, inRecord, token, k) {
      FirstDecides(a, s, i, inRecord, token, k);
    }
    StringIff(a, s, i, inRecord, token, k);
  }

  lemma {:induction false} SymbolOnly(a: Alphabet, s: string, i: nat, inRecord: bool, token: Token, k: nat)
    requires i < |s| && SymbolAt(s, i).Some? && LexesAs(a, s, i, inRecord, token, k)
    ensures token == Symbol(SymbolAt(s, i).value) && k == i + |SymbolAt(s, i).value|
  {
    FirstDecides(a, s, i, inRecord, token, k);
    SymbolIff(s, i, token.text);
  }

  lemma {:induction false} SymbolLexes(a: Alphabet, s: string, i: nat, inRecord: bool, t: string)
    requires i < |s| && SymbolAt(s, i) == Some(t)
    ensures LexesAs(a, s, i, inRecord, Symbol(t), i + |t|)
  {
    SymbolIff(s, i, t);
  }

  lemma {:induction false} SymbolLexesIff(a: Alphabet, s: string, i: nat, inRecord: bool, token: Token, k: nat)
    requires i < |s| && SymbolAt(s, i).Some?
    ensures LexesAs(a, s, i, inRecord, token, k) <==>
            token == Symbol(SymbolAt(s, i).value) && k == i + |SymbolAt(s, i).value|
  {
    var t := SymbolAt(s, i).value;
    SymbolLexes(a, s, i, inRecord, t);
    if LexesAs(a, s, i, inRecord, token, k) {
      SymbolOnly(a, s, i, inRecord, token, k);
    }
  }

  lemma {:induction false} SymbolTaken(a: Alphabet, s: string, i: nat, inRecord: bool)
    requires i < |s| && s[i] != '"' && SymbolAt(s, i).Some?
    ensures LexemeAt(a, s, i, inRecord)
            == Ok(Lexeme(Symbol(SymbolAt(s, i).value), i + |SymbolAt(s, i).value|))
  {
  }

  lemma {:induction false} SymbolLexemeIff(a: Alphabet, s: string, i: nat, inRecord: bool, token: Token, k: nat)
    requires i < |s| && s[i] != '"' && SymbolAt(s, i).Some?
    ensures LexemeAt(a, s, i, inRecord) == Ok(Lexeme(token, k)) <==> LexesAs(a, s, i, inRecord, token, k)
  {
    SymbolTaken(a, s, i, inRecord);
    SymbolLexesIff(a, s, i, inRecord, token, k);
  }

  lemma {:induction false} WordLexemeIff(a: Alphabet, s: string, i: nat, inRecord: bool, token: Token, k: nat)
    requires i < |s| && s[i] != '"' && SymbolAt(s, i).None?
    ensures LexemeAt(a, s, i, inRecord) == Ok(Lexeme(token, k)) <==> LexesAs(a, s, i, inRecord, token, k)
  {
    if LexesAs(a, s, i, inRecord, token, k) {
      FirstDecides(a, s, i, inRecord, token, k);
    }
    SymbolIff(s, i, []);
    if IsDigit(s[i]) {
      NumberIff(a, s, i, inRecord, token, k);
    } else if s[i] == '_' || a.alphabetic(s[i]) {
      NameIff(a, s, i, inRecord, token, k);
    }
  }

  /** The token taken is exactly the one the text from there stands for, in full. */
  lemma {:induction false} LexemeIff(a: Alphabet, s: string, i: nat, inRecord: bool, token: Token, k: nat)
    requires i < |s|
    ensures LexemeAt(a, s, i, inRecord) == Ok(Lexeme(token, k)) <==> LexesAs(a, s, i, inRecord, token, k)
  {
    if s[i] == '"' {
      StringLexemeIff(a, s, i, inRecord, token, k);
    } else if SymbolAt(s, i).Some? {
      SymbolLexemeIff(a, s, i, inRecord, token, k);
    } else {
      WordLexemeIff(a, s, i, inRecord, token, k);
    }
  }

  // ---- All tokens -------------------------------------------------------------------------------------------

  predicate Pairs(opener: char, closer: string) {
    (opener == '(' && closer == ")") || (opener == '{' && closer == "}") || (opener == '[' && closer == "]")
  }

  /** What the delimiters open before a token become after it. */
  function Delimiters(open: string, token: Token): string {
    if !token.Symbol? then open
    else if token.text == "(" || token.text == "{" || token.text == "[" then open + token.text
    else if open != [] && Pairs(open[|open| - 1], token.text) then open[..|open| - 1]
    else open
  }

  /** Opens or closes a delimiter; what closes nothing that is open changes nothing. */
  method Nest(open: string, token: Token) returns (r: string)
    ensures r == Delimiters(open, token)
  {
    r := open;
    if !token.Symbol? {
      return;
    }
    if token.text == "(" || token.text == "{" || token.text == "[" {
      return open + token.text;
    }
    if open == [] {
      return;
    }
    var last := open[|open| - 1];
    if (token.text == ")" && last == '(') || (token.text == "}" && last == '{') || (token.text == "]" && last == '[') {
      r := open[..|open| - 1];
    }
  }

  function OpenAfter(open: string, tokens: seq<Token>): string
    decreases |tokens|
  {
    if tokens == [] then open else OpenAfter(Delimiters(open, tokens[0]), tokens[1..])
  }

  predicate Opens(token: Token) {
    token == Symbol("(") || token == Symbol("{") || token == Symbol("[")
  }

  predicate Shuts(token: Token) {
    token == Symbol(")") || token == Symbol("}") || token == Symbol("]")
  }

  predicate Encloses(first: Token, last: Token) {
    || (first == Symbol("(") && last == Symbol(")"))
    || (first == Symbol("{") && last == Symbol("}"))
    || (first == Symbol("[") && last == Symbol("]"))
  }

  /** Every delimiter is closed by its own, after what it encloses. */
  predicate Balanced(tokens: seq<Token>)
    decreases |tokens|
  {
    || tokens == []
    || (!Opens(tokens[0]) && !Shuts(tokens[0]) && Balanced(tokens[1..]))
    || exists k :: 0 < k < |tokens| && Encloses(tokens[0], tokens[k])
                   && Balanced(tokens[1..k]) && Balanced(tokens[k + 1..])
  }

  lemma {:induction false} OpenAfterConcat(open: string, a: seq<Token>, b: seq<Token>)
    ensures OpenAfter(open, a + b) == OpenAfter(OpenAfter(open, a), b)
    decreases |a|
  {
    if a == [] {
      assert a + b == b;
    } else {
      assert (a + b)[1..] == a[1..] + b;
      OpenAfterConcat(Delimiters(open, a[0]), a[1..], b);
    }
  }

  lemma {:induction false} EnclosedKeepsOpen(open: string, first: Token, last: Token)
    requires Encloses(first, last)
    ensures Delimiters(Delimiters(open, first), last) == open
  {
    var inner := Delimiters(open, first);
    assert inner == open + first.text && |first.text| == 1;
    assert inner[..|inner| - 1] == open;
  }

  lemma {:induction false} OthersKeepOpen(open: string, token: Token)
    requires !Opens(token) && !Shuts(token)
    ensures Delimiters(open, token) == open
  {
  }

  lemma {:induction false} EnclosingKeepsOpen(open: string, tokens: seq<Token>, k: nat)
    requires 0 < k < |tokens| && Encloses(tokens[0], tokens[k])
    requires OpenAfter(Delimiters(open, tokens[0]), tokens[1..k]) == Delimiters(open, tokens[0])
    ensures OpenAfter(open, tokens) == OpenAfter(open, tokens[k + 1..])
  {
    var inner := Delimiters(open, tokens[0]);
    assert tokens[1..] == tokens[1..k] + tokens[k..];
    OpenAfterConcat(inner, tokens[1..k], tokens[k..]);
    assert tokens[k..][1..] == tokens[k + 1..];
    EnclosedKeepsOpen(open, tokens[0], tokens[k]);
  }

  /** Whatever is balanced leaves open what was, so that only what encloses a token decides how it is read. */
  lemma {:induction false} BalancedKeepsOpen(open: string, tokens: seq<Token>)
    requires Balanced(tokens)
    ensures OpenAfter(open, tokens) == open
    decreases |tokens|
  {
    if tokens == [] {
    } else if !Opens(tokens[0]) && !Shuts(tokens[0]) && Balanced(tokens[1..]) {
      OthersKeepOpen(open, tokens[0]);
      BalancedKeepsOpen(open, tokens[1..]);
    } else {
      var k :| 0 < k < |tokens| && Encloses(tokens[0], tokens[k])
               && Balanced(tokens[1..k]) && Balanced(tokens[k + 1..]);
      BalancedKeepsOpen(Delimiters(open, tokens[0]), tokens[1..k]);
      BalancedKeepsOpen(open, tokens[k + 1..]);
      EnclosingKeepsOpen(open, tokens, k);
    }
  }

  predicate InRecord(open: string, last: Option<Token>) {
    && open != [] && open[|open| - 1] == '{'
    && (last == Some(Symbol("{")) || last == Some(Symbol(",")))
  }

  function Spanned(s: string, i: nat, lexeme: Lexeme): SpannedToken
    requires i < lexeme.end <= |s|
  {
    SpannedToken(lexeme.token, Span(At(s, i), At(s, lexeme.end)))
  }

  /** The tokens from position `i` on, after `last` and with some delimiters open, and no limit on their number. */
  function TokensFrom(a: Alphabet, s: string, i: nat, last: Option<Token>, open: string)
    : Result<seq<SpannedToken>, Fault>
    requires i <= |s|
    decreases |s| - i
  {
    var j := SpaceEnd(a, s, i);
    if j == |s| then Ok([SpannedToken(Eof, Span(At(s, |s|), At(s, |s|)))])
    else if LegacySeparatorAt(a, s, j) then Err(LegacySeparator)
    else if Follows(s, j, "--") then TokensFrom(a, s, LineEnd(s, j + 2), last, open)
    else
      match LexemeAt(a, s, j, InRecord(open, last))
      case Err(fault) => Err(fault)
      case Ok(lexeme) =>
        match TokensFrom(a, s, lexeme.end, Some(lexeme.token), Delimiters(open, lexeme.token))
        case Err(fault) => Err(fault)
        case Ok(rest) => Ok([Spanned(s, j, lexeme)] + rest)
  }

  function Tokens(a: Alphabet, s: string): Result<seq<SpannedToken>, Fault> {
    TokensFrom(a, s, 0, None, [])
  }

  function LastOf(tokens: seq<SpannedToken>): Option<Token> {
    if tokens == [] then None else Some(tokens[|tokens| - 1].token)
  }

  /** The whole is some tokens followed by the rest, or the rest's fault. */
  ghost predicate Prefixed(
    whole: Result<seq<SpannedToken>, Fault>, tokens: seq<SpannedToken>, rest: Result<seq<SpannedToken>, Fault>)
  {
    match rest
    case Ok(more) => whole == Ok(tokens + more)
    case Err(fault) => whole == Err(fault)
  }

  /** No token list within the limit. */
  ghost predicate Exceeds(whole: Result<seq<SpannedToken>, Fault>, limit: nat) {
    whole.Ok? ==> |whole.value| > limit
  }

  /** Neither space nor separator nor comment stands at `i`. */
  predicate TokenStarts(a: Alphabet, s: string, i: nat) {
    && i < |s|
    && SpaceEnd(a, s, i) == i
    && !LegacySeparatorAt(a, s, i)
    && !Follows(s, i, "--")
  }

  lemma {:induction false} SpaceEndsOnce(a: Alphabet, s: string, i: nat)
    requires i <= |s|
    ensures SpaceEnd(a, s, SpaceEnd(a, s, i)) == SpaceEnd(a, s, i)
    decreases |s| - i
  {
    if i < |s| && a.space(s[i]) {
      SpaceEndsOnce(a, s, i + 1);
    }
  }

  lemma {:induction false} SpaceSkipped(a: Alphabet, s: string, i: nat, last: Option<Token>, open: string)
    requires i <= |s|
    ensures var j := SpaceEnd(a, s, i);
      && SpaceEnd(a, s, j) == j
      && TokensFrom(a, s, i, last, open) == TokensFrom(a, s, j, last, open)
  {
    SpaceEndsOnce(a, s, i);
  }

  lemma {:induction false} SomeTokens(a: Alphabet, s: string, i: nat, last: Option<Token>, open: string)
    requires i <= |s|
    ensures var r := TokensFrom(a, s, i, last, open); r.Ok? ==> r.value != []
    decreases |s| - i
  {
    var j := SpaceEnd(a, s, i);
    if j < |s| && Follows(s, j, "--") {
      SomeTokens(a, s, LineEnd(s, j + 2), last, open);
    }
  }

  function OneMore(first: SpannedToken, rest: Result<seq<SpannedToken>, Fault>): Result<seq<SpannedToken>, Fault> {
    if rest.Ok? then Ok([first] + rest.value) else rest
  }

  /** Where a token starts, the tokens are that one and those after it. */
  lemma {:induction false} TokenHere(a: Alphabet, s: string, i: nat, last: Option<Token>, open: string)
    requires TokenStarts(a, s, i)
    ensures match LexemeAt(a, s, i, InRecord(open, last))
      case Err(fault) => TokensFrom(a, s, i, last, open) == Err(fault)
      case Ok(lexeme) =>
        TokensFrom(a, s, i, last, open) ==
          OneMore(Spanned(s, i, lexeme),
                  TokensFrom(a, s, lexeme.end, Some(lexeme.token), Delimiters(open, lexeme.token)))
  {
  }

  lemma {:induction false} PrefixedByOneMore(
    whole: Result<seq<SpannedToken>, Fault>, tokens: seq<SpannedToken>, first: SpannedToken,
    rest: Result<seq<SpannedToken>, Fault>)
    requires Prefixed(whole, tokens, OneMore(first, rest))
    ensures Prefixed(whole, tokens + [first], rest)
  {
    if rest.Ok? {
      assert tokens + ([first] + rest.value) == (tokens + [first]) + rest.value;
    }
  }

  lemma {:induction false} TokenTaken(
    a: Alphabet, s: string, i: nat, tokens: seq<SpannedToken>, open: string,
    whole: Result<seq<SpannedToken>, Fault>)
    requires TokenStarts(a, s, i)
    requires Prefixed(whole, tokens, TokensFrom(a, s, i, LastOf(tokens), open))
    ensures match LexemeAt(a, s, i, InRecord(open, LastOf(tokens)))
      case Err(_) => whole.Err?
      case Ok(lexeme) =>
        var rest := TokensFrom(a, s, lexeme.end, Some(lexeme.token), Delimiters(open, lexeme.token));
        && Prefixed(whole, tokens + [Spanned(s, i, lexeme)], rest)
        && (whole.Ok? ==> |whole.value| > |tokens| + 1)
  {
    var r := LexemeAt(a, s, i, InRecord(open, LastOf(tokens)));
    TokenHere(a, s, i, LastOf(tokens), open);
    if r.Ok? {
      var lexeme := r.value;
      var rest := TokensFrom(a, s, lexeme.end, Some(lexeme.token), Delimiters(open, lexeme.token));
      SomeTokens(a, s, lexeme.end, Some(lexeme.token), Delimiters(open, lexeme.token));
      PrefixedByOneMore(whole, tokens, Spanned(s, i, lexeme), rest);
    }
  }

  lemma {:induction false} PrefixedByNothing(whole: Result<seq<SpannedToken>, Fault>)
    ensures Prefixed(whole, [], whole)
  {
    if whole.Ok? {
      assert [] + whole.value == whole.value;
    }
  }

  class Lexer {
    const a: Alphabet
    const s: string
    const maxTokens: nat
    var at: nat
    var offset: nat

    ghost predicate Valid()
      reads this
    {
      at <= |s| && offset == At(s, at)
    }

    constructor (a: Alphabet, s: string, maxTokens: nat)
      ensures Valid() && at == 0 && this.a == a && this.s == s && this.maxTokens == maxTokens
    {
      this.a, this.s, this.maxTokens := a, s, maxTokens;
      at, offset := 0, 0;
      new;
      assert s[..0] == [];
    }

    method Bump()
      requires Valid() && at < |s|
      modifies this
      ensures Valid() && at == old(at) + 1
    {
      AtNext(s, at);
      offset := offset + Width(s[at]);
      at := at + 1;
    }

    /** Advances by a known stretch of text. */
    method Skip(n: nat)
      requires Valid() && at + n <= |s|
      modifies this
      ensures Valid() && at == old(at) + n
    {
      for k := 0 to n
        invariant Valid() && at == old(at) + k
      {
        Bump();
      }
    }

    method SkipSpace()
      requires Valid()
      modifies this
      ensures Valid() && at == SpaceEnd(a, s, old(at))
    {
      while at < |s| && a.space(s[at])
        invariant Valid() && SpaceEnd(a, s, old(at)) == SpaceEnd(a, s, at)
        decreases |s| - at
      {
        Bump();
      }
    }

    method SkipDigits()
      requires Valid()
      modifies this
      ensures Valid() && at == DigitsEnd(s, old(at))
    {
      while at < |s| && IsDigit(s[at])
        invariant Valid() && DigitsEnd(s, old(at)) == DigitsEnd(s, at)
        decreases |s| - at
      {
        Bump();
      }
    }

    /** The text of a string literal after its opening quote. */
    method String(start: nat) returns (r: Result<Token, Fault>)
      requires Valid() && start + 1 == at
      modifies this
      ensures Valid()
      ensures match StringAt(a, s, start)
        case Ok(lexeme) => r == Ok(lexeme.token) && at == lexeme.end
        case Err(fault) => r == Err(fault)
    {
      var escaped := false;
      while at < |s|
        invariant Valid() && start < at
        invariant StringEnd(s, start + 1, false) == StringEnd(s, at, escaped)
        decreases |s| - at
      {
        var c := s[at];
        Bump();
        if c == '"' && !escaped {
          var value := a.decode(s[start..at]);
          return if value.Some? then Ok(Text(value.value)) else Err(InvalidString);
        }
        escaped := c == '\\' && !escaped;
      }
      r := Err(UnterminatedString);
    }

    method Number(start: nat) returns (r: Result<Token, Fault>)
      requires Valid() && start + 1 == at && IsDigit(s[start])
      modifies this
      ensures Valid()
      ensures match NumberAt(s, start)
        case Ok(lexeme) => r == Ok(lexeme.token) && at == lexeme.end
        case Err(fault) => r == Err(fault)
    {
      SkipDigits();
      if at + 1 < |s| && s[at] == '.' && IsDigit(s[at + 1]) {
        Bump();
        SkipDigits();
        return Ok(Decimal(s[start..at]));
      }
      assert s[start..at] == [s[start]] + s[start + 1..at];
      var value := ValueOf(s[start..at]);
      r := if value <= I64_MAX then Ok(Int(value)) else Err(InvalidInteger);
    }

    method SkipIdent()
      requires Valid()
      modifies this
      ensures Valid() && at == IdentEnd(a, s, old(at))
    {
      while at < |s| && (s[at] == '_' || a.alphanumeric(s[at]))
        invariant Valid() && IdentEnd(a, s, old(at)) == IdentEnd(a, s, at)
        decreases |s| - at
      {
        Bump();
      }
    }

    method SkipUri()
      requires Valid()
      modifies this
      ensures Valid() && at == UriEnd(a, s, old(at))
    {
      while at < |s| && !a.space(s[at]) && s[at] !in ",;)]}"
        invariant Valid() && UriEnd(a, s, old(at)) == UriEnd(a, s, at)
        decreases |s| - at
      {
        Bump();
      }
    }

    method SkipScheme()
      requires Valid()
      modifies this
      ensures Valid() && at == HyphenatedEnd(s, old(at))
    {
      if at < |s| && s[at] == '-' {
        var colon := FindScheme();
        if colon.Some? {
          Skip(colon.value - at);
        }
      }
    }

    method Name(start: nat, inRecord: bool) returns (r: Token)
      requires Valid() && start + 1 == at
      modifies this
      ensures Valid() && Lexeme(r, at) == NameAt(a, s, start, inRecord)
    {
      SkipIdent();
      if !inRecord {
        SkipScheme();
      }
      if !inRecord && at < |s| && s[at] == ':' {
        Bump();
        SkipUri();
        r := Uri(s[start..at]);
      } else if a.uppercase(s[start]) {
        r := Upper(s[start..at]);
      } else {
        r := Ident(s[start..at]);
      }
    }

    method FindScheme() returns (r: Option<nat>)
      requires Valid()
      ensures r == SchemeEnd(s, at)
    {
      var i := at;
      while i < |s|
        invariant at <= i <= |s| && SchemeEnd(s, at) == SchemeEnd(s, i)
      {
        if s[i] == ':' {
          return Some(i);
        }
        if !AsciiWord(s[i]) {
          return None;
        }
        i := i + 1;
      }
      r := None;
    }

    /** The token at the current position. */
    method Next(inRecord: bool) returns (r: Result<Token, Fault>)
      requires Valid() && at < |s|
      modifies this
      ensures Valid()
      ensures match LexemeAt(a, s, old(at), inRecord)
        case Ok(lexeme) => r == Ok(lexeme.token) && at == lexeme.end
        case Err(fault) => r == Err(fault)
      ensures r.Ok? ==> LexesAs(a, s, old(at), inRecord, r.value, at)
      ensures r.Err? ==> forall token, k: nat :: !LexesAs(a, s, old(at), inRecord, token, k)
    {
      forall token, k: nat
        ensures LexemeAt(a, s, at, inRecord) == Ok(Lexeme(token, k)) <==> LexesAs(a, s, at, inRecord, token, k)
      {
        LexemeIff(a, s, at, inRecord, token, k);
      }
      var start := at;
      if s[at] == '"' {
        Bump();
        r := String(start);
        return;
      }
      var symbol := SymbolAt(s, at);
      if symbol.Some? {
        Skip(|symbol.value|);
        return Ok(Symbol(symbol.value));
      }
      Bump();
      if IsDigit(s[start]) {
        r := Number(start);
      } else if s[start] == '_' || a.alphabetic(s[start]) {
        var name := Name(start, inRecord);
        r := Ok(name);
      } else {
        r := Err(UnsupportedCharacter);
      }
    }

    /** Takes one token, unless it is malformed or one too many. */
    method TakeToken(tokens: seq<SpannedToken>, open: string, ghost whole: Result<seq<SpannedToken>, Fault>)
      returns (r: Result<SpannedToken, Fault>)
      requires Valid() && TokenStarts(a, s, at)
      requires Prefixed(whole, tokens, TokensFrom(a, s, at, LastOf(tokens), open))
      modifies this
      ensures Valid() && (r.Ok? ==> at > old(at))
      ensures r.Ok? ==> |tokens| < maxTokens
      ensures r.Ok? ==>
        Prefixed(whole, tokens + [r.value],
                 TokensFrom(a, s, at, Some(r.value.token), Delimiters(open, r.value.token)))
      ensures r.Err? ==> Exceeds(whole, maxTokens)
    {
      var start, from := at, offset;
      var inRecord := false;
      if open != [] && tokens != [] && open[|open| - 1] == '{' {
        var last := tokens[|tokens| - 1].token;
        inRecord := last == Symbol("{") || last == Symbol(",");
      }
      TokenTaken(a, s, at, tokens, open, whole);
      var token := Next(inRecord);
      if token.Err? {
        return Err(token.error);
      }
      if |tokens| >= maxTokens {
        return Err(SyntaxBudget);
      }
      r := Ok(SpannedToken(token.value, Span(from, offset)));
    }

    /** All tokens, unless there are more than the limit. */
    method Run() returns (r: Result<seq<SpannedToken>, Fault>)
      requires Valid() && at == 0
      modifies this
      ensures r.Err? ==> Exceeds(Tokens(a, s), maxTokens)
      ensures r.Ok? ==> r == Tokens(a, s) && |r.value| <= maxTokens
    {
      var tokens: seq<SpannedToken> := [];
      var open := [];
      ghost var whole := Tokens(a, s);
      PrefixedByNothing(whole);
      while at < |s|
        invariant Valid()
        invariant |tokens| <= maxTokens
        invariant Prefixed(whole, tokens, TokensFrom(a, s, at, LastOf(tokens), open))
        decreases |s| - at
      {
        SpaceSkipped(a, s, at, LastOf(tokens), open);
        SkipSpace();
        if at == |s| {
          break;
        }
        if LegacySeparatorAt(a, s, at) {
          return Err(LegacySeparator);
        }
        if Follows(s, at, "--") {
          SkipComment();
        } else {
          var token := TakeToken(tokens, open, whole);
          if token.Err? {
            return Err(token.error);
          }
          tokens := tokens + [token.value];
          open := Nest(open, token.value.token);
        }
      }
      if |tokens| >= maxTokens {
        return Err(SyntaxBudget);
      }
      r := Ok(tokens + [SpannedToken(Eof, Span(offset, offset))]);
    }

    method SkipComment()
      requires Valid() && Follows(s, at, "--")
      modifies this
      ensures Valid() && at == LineEnd(s, old(at) + 2)
    {
      Skip(2);
      while at < |s| && s[at] != '\n'
        invariant Valid() && LineEnd(s, old(at) + 2) == LineEnd(s, at)
        decreases |s| - at
      {
        Bump();
      }
    }
  }

  /** The text between two positions is space and comments. */
  predicate Skippable(a: Alphabet, s: string, i: nat, j: nat)
    requires i <= j <= |s|
    decreases j - i
  {
    i == j ||
    if a.space(s[i]) then Skippable(a, s, i + 1, j)
    else
      && Follows(s, i, "--") && !LegacySeparatorAt(a, s, i)
      && LineEnd(s, i + 2) <= j && Skippable(a, s, LineEnd(s, i + 2), j)
  }

  /** How a token is written. */
  predicate Spelled(a: Alphabet, token: Token, text: string) {
    match token
    case Symbol(symbol) => text == symbol
    case Text(value) => a.decode(text) == Some(value)
    case Int(number) => text != [] && AllDigits(text) && ValueOf(text) == number
    case Decimal(numeral) => text == numeral
    case Uri(uri) => text == uri
    case Upper(name) => text == name
    case Ident(name) => text == name
    case Eof => false
  }

  /**
   * The first token stands at `j` to `k`, after nothing but space and comments from `i`; it is spelled there, and is
   * the longest that stands there.
   */
  ghost predicate Starts(
    a: Alphabet, s: string, i: nat, last: Option<Token>, open: string, first: SpannedToken, j: nat, k: nat)
  {
    && i <= j < k <= |s|
    && Skippable(a, s, i, j) && TokenStarts(a, s, j)
    && first.span == Span(At(s, j), At(s, k))
    && LexesAs(a, s, j, InRecord(open, last), first.token, k)
    && Spelled(a, first.token, s[j..k])
  }

  /** The text from `i` on is the tokens in order, each the longest there is, with only space and comments between. */
  ghost predicate Covers(
    a: Alphabet, s: string, i: nat, last: Option<Token>, open: string, tokens: seq<SpannedToken>)
    requires i <= |s|
    decreases |tokens|
  {
    && tokens != []
    && if |tokens| == 1 then tokens[0] == SpannedToken(Eof, Span(At(s, |s|), At(s, |s|))) && Skippable(a, s, i, |s|)
       else
         var first := tokens[0];
         exists j, k :: Starts(a, s, i, last, open, first, j, k)
                        && Covers(a, s, k, Some(first.token), Delimiters(open, first.token), tokens[1..])
  }

  /** What is skipped at `i` is skipped in every cover. */
  lemma {:induction false} SkipStep(
    a: Alphabet, s: string, i: nat, n: nat, last: Option<Token>, open: string, tokens: seq<SpannedToken>)
    requires i < n <= |s| && !TokenStarts(a, s, i)
    requires forall j :: i < j <= |s| ==> (Skippable(a, s, i, j) <==> n <= j && Skippable(a, s, n, j))
    ensures Covers(a, s, i, last, open, tokens) <==> Covers(a, s, n, last, open, tokens)
  {
    if |tokens| > 1 {
      var first := tokens[0];
      forall j, k ensures Starts(a, s, i, last, open, first, j, k) <==> Starts(a, s, n, last, open, first, j, k) {
      }
    }
  }

  lemma {:induction false} SpaceStep(a: Alphabet, s: string, i: nat, last: Option<Token>, open: string)
    requires i < |s| && a.space(s[i])
    ensures TokensFrom(a, s, i, last, open) == TokensFrom(a, s, i + 1, last, open)
    ensures forall tokens :: Covers(a, s, i, last, open, tokens) <==> Covers(a, s, i + 1, last, open, tokens)
  {
    forall tokens ensures Covers(a, s, i, last, open, tokens) <==> Covers(a, s, i + 1, last, open, tokens) {
      SkipStep(a, s, i, i + 1, last, open, tokens);
    }
  }

  lemma {:induction false} CommentStep(a: Alphabet, s: string, i: nat, last: Option<Token>, open: string)
    requires i < |s| && !a.space(s[i]) && Follows(s, i, "--") && !LegacySeparatorAt(a, s, i)
    ensures TokensFrom(a, s, i, last, open) == TokensFrom(a, s, LineEnd(s, i + 2), last, open)
    ensures forall tokens ::
              Covers(a, s, i, last, open, tokens) <==> Covers(a, s, LineEnd(s, i + 2), last, open, tokens)
  {
    forall tokens
      ensures Covers(a, s, i, last, open, tokens) <==> Covers(a, s, LineEnd(s, i + 2), last, open, tokens)
    {
      SkipStep(a, s, i, LineEnd(s, i + 2), last, open, tokens);
    }
  }

  lemma {:induction false} NoSkip(a: Alphabet, s: string, i: nat)
    requires i < |s| && !a.space(s[i]) && (!Follows(s, i, "--") || LegacySeparatorAt(a, s, i))
    ensures forall j :: i <= j <= |s| && Skippable(a, s, i, j) ==> j == i
  {
  }

  lemma {:induction false} EndStep(a: Alphabet, s: string, last: Option<Token>, open: string, tokens: seq<SpannedToken>)
    ensures TokensFrom(a, s, |s|, last, open) == Ok(tokens) <==> Covers(a, s, |s|, last, open, tokens)
  {
    if |tokens| == 1 {
      assert tokens == [tokens[0]];
    }
  }

  lemma {:induction false} CoversCons(
    a: Alphabet, s: string, i: nat, last: Option<Token>, open: string, first: SpannedToken, j: nat, k: nat,
    rest: seq<SpannedToken>)
    requires i <= |s| && Starts(a, s, i, last, open, first, j, k)
    requires Covers(a, s, k, Some(first.token), Delimiters(open, first.token), rest)
    ensures Covers(a, s, i, last, open, [first] + rest)
  {
    var tokens := [first] + rest;
    assert tokens[1..] == rest;
    assert Starts(a, s, i, last, open, tokens[0], j, k);
  }

  lemma {:induction false} NumberSpelled(a: Alphabet, s: string, i: nat)
    requires i < |s| && IsDigit(s[i]) && NumberAt(s, i).Ok?
    ensures Spelled(a, NumberAt(s, i).value.token, s[i..NumberAt(s, i).value.end])
  {
    var n := DigitsEnd(s, i + 1);
    assert s[i..n] == [s[i]] + s[i + 1..n];
  }

  lemma {:induction false} LexemeSpelled(a: Alphabet, s: string, i: nat, inRecord: bool)
    requires i < |s| && LexemeAt(a, s, i, inRecord).Ok?
    ensures var lexeme := LexemeAt(a, s, i, inRecord).value; Spelled(a, lexeme.token, s[i..lexeme.end])
  {
    if s[i] != '"' && SymbolAt(s, i) == None && IsDigit(s[i]) {
      NumberSpelled(a, s, i);
    }
  }

  /** What follows each token that can stand at `i` is covered exactly by the lexer's tokens. */
  ghost predicate RestIff(a: Alphabet, s: string, i: nat, last: Option<Token>, open: string) {
    forall first, k, rest ::
      i < k <= |s| && LexesAs(a, s, i, InRecord(open, last), first, k) ==>
        (TokensFrom(a, s, k, Some(first), Delimiters(open, first)) == Ok(rest) <==>
         Covers(a, s, k, Some(first), Delimiters(open, first), rest))
  }

  lemma {:induction false} TokenCovers(
    a: Alphabet, s: string, i: nat, last: Option<Token>, open: string, tokens: seq<SpannedToken>)
    requires TokenStarts(a, s, i) && RestIff(a, s, i, last, open)
    requires TokensFrom(a, s, i, last, open) == Ok(tokens)
    ensures Covers(a, s, i, last, open, tokens)
  {
    var inRecord := InRecord(open, last);
    TokenHere(a, s, i, last, open);
    var lexeme := LexemeAt(a, s, i, inRecord).value;
    LexemeIff(a, s, i, inRecord, lexeme.token, lexeme.end);
    LexemeSpelled(a, s, i, inRecord);
    var rest := TokensFrom(a, s, lexeme.end, Some(lexeme.token), Delimiters(open, lexeme.token)).value;
    assert Starts(a, s, i, last, open, Spanned(s, i, lexeme), i, lexeme.end);
    CoversCons(a, s, i, last, open, Spanned(s, i, lexeme), i, lexeme.end, rest);
  }

  lemma {:induction false} CoveredToken(
    a: Alphabet, s: string, i: nat, last: Option<Token>, open: string, tokens: seq<SpannedToken>)
    requires TokenStarts(a, s, i) && RestIff(a, s, i, last, open)
    requires Covers(a, s, i, last, open, tokens)
    ensures TokensFrom(a, s, i, last, open) == Ok(tokens)
  {
    NoSkip(a, s, i);
    var first, rest := tokens[0], tokens[1..];
    var j, k :| Starts(a, s, i, last, open, first, j, k)
                && Covers(a, s, k, Some(first.token), Delimiters(open, first.token), rest);
    LexemeIff(a, s, i, InRecord(open, last), first.token, k);
    TokenHere(a, s, i, last, open);
    assert tokens == [first] + rest;
  }

  /** The lexer's tokens are exactly those that cover the text, each the longest there is. */
  lemma {:induction false} TokensFromIff(
    a: Alphabet, s: string, i: nat, last: Option<Token>, open: string, tokens: seq<SpannedToken>)
    requires i <= |s|
    ensures TokensFrom(a, s, i, last, open) == Ok(tokens) <==> Covers(a, s, i, last, open, tokens)
    decreases |s| - i
  {
    if i == |s| {
      EndStep(a, s, last, open, tokens);
    } else if a.space(s[i]) {
      SpaceStep(a, s, i, last, open);
      TokensFromIff(a, s, i + 1, last, open, tokens);
    } else if LegacySeparatorAt(a, s, i) {
      NoSkip(a, s, i);
    } else if Follows(s, i, "--") {
      CommentStep(a, s, i, last, open);
      TokensFromIff(a, s, LineEnd(s, i + 2), last, open, tokens);
    } else {
      forall first, k, rest | i < k <= |s| && LexesAs(a, s, i, InRecord(open, last), first, k)
        ensures TokensFrom(a, s, k, Some(first), Delimiters(open, first)) == Ok(rest) <==>
                Covers(a, s, k, Some(first), Delimiters(open, first), rest)
      {
        TokensFromIff(a, s, k, Some(first), Delimiters(open, first), rest);
      }
      if TokensFrom(a, s, i, last, open) == Ok(tokens) {
        TokenCovers(a, s, i, last, open, tokens);
      } else if Covers(a, s, i, last, open, tokens) {
        CoveredToken(a, s, i, last, open, tokens);
      }
    }
  }

  lemma {:induction false} TokensIff(a: Alphabet, s: string, tokens: seq<SpannedToken>)
    ensures Tokens(a, s) == Ok(tokens) <==> Covers(a, s, 0, None, [], tokens)
  {
    TokensFromIff(a, s, 0, None, [], tokens);
  }

  /** The bounded lexer gives the unbounded one's tokens exactly when they are within the limit. */
  method LexBounded(a: Alphabet, s: string, maxTokens: nat) returns (r: Result<seq<SpannedToken>, Fault>)
    ensures r.Ok? <==> Tokens(a, s).Ok? && |Tokens(a, s).value| <= maxTokens
    ensures r.Ok? ==> r == Tokens(a, s)
    ensures forall tokens :: r == Ok(tokens) <==> Covers(a, s, 0, None, [], tokens) && |tokens| <= maxTokens
  {
    forall tokens ensures Tokens(a, s) == Ok(tokens) <==> Covers(a, s, 0, None, [], tokens) {
      TokensIff(a, s, tokens);
    }
    var lexer := new Lexer(a, s, maxTokens);
    r := lexer.Run();
  }

  // ---- Spans -------------------------------------------------------------------------------------------------

  /** Spans from byte `low` on: nonempty, in order and apart, then an empty one at the end of the text. */
  predicate InOrder(tokens: seq<SpannedToken>, low: nat, end: nat) {
    && tokens != []
    && low <= tokens[0].span.start
    && if |tokens| == 1 then tokens[0] == SpannedToken(Eof, Span(end, end))
       else tokens[0].span.start < tokens[0].span.end && tokens[0].token != Eof
            && InOrder(tokens[1..], tokens[0].span.end, end)
  }

  lemma {:induction false} FewTokens(tokens: seq<SpannedToken>, low: nat, end: nat)
    requires InOrder(tokens, low, end)
    ensures low + |tokens| <= end + 1
    decreases |tokens|
  {
    if |tokens| > 1 {
      FewTokens(tokens[1..], tokens[0].span.end, end);
    }
  }

  // ---- Nothing is lost -------------------------------------------------------------------------------------

  // Each step of the lexer is a step of the cover, and the other way round.

  /** The source is its tokens' spellings in order, at their spans, and otherwise space and comments. */
  lemma {:induction false} TokensSpellTheSource(a: Alphabet, s: string)
    requires Tokens(a, s).Ok?
    ensures Covers(a, s, 0, None, [], Tokens(a, s).value)
  {
    TokensIff(a, s, Tokens(a, s).value);
  }

  /** Tokens that spell the source have their spans in order. */
  lemma {:induction false} CoversInOrder(
    a: Alphabet, s: string, i: nat, last: Option<Token>, open: string, tokens: seq<SpannedToken>)
    requires i <= |s| && Covers(a, s, i, last, open, tokens)
    ensures InOrder(tokens, At(s, i), At(s, |s|))
    decreases |tokens|
  {
    if |tokens| == 1 {
      AtGrows(s, i, |s|);
    } else {
      var first := tokens[0];
      var j, k :| Starts(a, s, i, last, open, first, j, k)
                  && Covers(a, s, k, Some(first.token), Delimiters(open, first.token), tokens[1..]);
      AtGrows(s, i, j);
      AtGrows(s, j, k);
      CoversInOrder(a, s, k, Some(first.token), Delimiters(open, first.token), tokens[1..]);
    }
  }

  /** Spans are in order, apart and nonempty but for the last, so tokens exceed bytes by at most one. */
  lemma {:induction false} TokensInOrder(a: Alphabet, s: string)
    requires Tokens(a, s).Ok?
    ensures InOrder(Tokens(a, s).value, 0, ByteLength(s))
    ensures |Tokens(a, s).value| <= ByteLength(s) + 1
  {
    TokensSpellTheSource(a, s);
    CoversInOrder(a, s, 0, None, [], Tokens(a, s).value);
    assert s[..0] == [] && s[..|s|] == s;
    FewTokens(Tokens(a, s).value, 0, ByteLength(s));
  }

  /** No text the machine can hold has more tokens than the limit of the unbounded lexer. */
  lemma {:induction false} UnboundedLexerNeverRefuses(a: Alphabet, s: string)
    requires Tokens(a, s).Ok? && ByteLength(s) < U64_MAX
    ensures |Tokens(a, s).value| <= U64_MAX
  {
    TokensInOrder(a, s);
  }
}
