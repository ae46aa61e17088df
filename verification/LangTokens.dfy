/** The tokens of the language, and what text each of them stands for: the longest there is. */
module LangTokens {
  import opened Common
  import opened Decimals
  import opened LangBindings

  /** Character classes of the text library, and the decoding of string literals by section 7 of RFC 8259. */
  datatype Alphabet = Alphabet(
    space: char -> bool,
    alphabetic: char -> bool,
    alphanumeric: char -> bool,
    uppercase: char -> bool,
    decode: string -> Option<string>)

  datatype Token =
    | Symbol(text: string)
    | Text(value: string)
    | Int(number: nat)
    | Decimal(numeral: string)
    | Uri(uri: string)
    | Upper(name: string)
    | Ident(name: string)
    | Eof

  datatype Span = Span(start: nat, end: nat)

  datatype SpannedToken = SpannedToken(token: Token, span: Span)

  /** TM1001 to TM1007. */
  datatype Fault =
    | UnsupportedCharacter | InvalidString | UnterminatedString | InvalidInteger | LegacySeparator | SyntaxBudget

  const I64_MAX: nat := 0x7FFF_FFFF_FFFF_FFFF

  // ---- Byte positions ----------------------------------------------------------------------------------

  /** The byte offset of a character position. */
  function At(s: string, i: nat): nat
    requires i <= |s|
  {
    ByteLength(s[..i])
  }

  lemma {:induction false} ByteLengthConcat(a: string, b: string)
    ensures ByteLength(a + b) == ByteLength(a) + ByteLength(b)
  {
    if a == [] {
      assert a + b == b;
    } else {
      ByteLengthConcat(a[1..], b);
      assert (a + b)[1..] == a[1..] + b;
    }
  }

  lemma {:induction false} AtNext(s: string, i: nat)
    requires i < |s|
    ensures At(s, i + 1) == At(s, i) + Width(s[i])
  {
    assert s[..i + 1] == s[..i] + [s[i]];
    ByteLengthConcat(s[..i], [s[i]]);
    assert [s[i]][1..] == [];
  }

  lemma {:induction false} AtGrows(s: string, i: nat, j: nat)
    requires i <= j <= |s|
    ensures At(s, i) + (j - i) <= At(s, j)
    decreases j - i
  {
    if i < j {
      AtNext(s, i);
      AtGrows(s, i + 1, j);
    }
  }

  // ---- What stands at a position -------------------------------------------------------------------------

  predicate Follows(s: string, i: nat, text: string) {
    i + |text| <= |s| && s[i..i + |text|] == text
  }

  /** The stretch from `i` to `k` of characters of a kind, as long as it goes. */
  predicate Extent(kind: char -> bool, s: string, i: nat, k: nat) {
    && i <= k <= |s|
    && (forall j :: i <= j < k ==> kind(s[j]))
    && (k < |s| ==> !kind(s[k]))
  }

  lemma {:induction false} ExtentUnique(kind: char -> bool, s: string, i: nat, k: nat, m: nat)
    requires Extent(kind, s, i, k) && Extent(kind, s, i, m)
    ensures k == m
  {
  }

  predicate InLine(c: char) {
    c != '\n'
  }

  /** The line that `i` is in begins at `b`. */
  predicate LineBegins(s: string, b: nat, i: nat) {
    && b <= i <= |s| && (b > 0 ==> s[b - 1] == '\n')
    && (forall j :: b <= j < i ==> s[j] != '\n')
  }

  /** After space from `i` the line ends, or a comment begins. */
  predicate OnlySpaceOrComment(a: Alphabet, s: string, i: nat, e: nat) {
    && Extent(a.space, s, i, e)
    && (Follows(s, e, "--") || exists n :: i <= n <= e && (n == |s| || s[n] == '\n'))
  }

  ghost predicate EndsLine(a: Alphabet, s: string, i: nat) {
    exists e: nat :: OnlySpaceOrComment(a, s, i, e)
  }

  predicate AllSpace(a: Alphabet, s: string, b: nat, i: nat)
    requires b <= i <= |s|
  {
    forall j :: b <= j < i ==> a.space(s[j])
  }

  ghost predicate OnlySpaceBefore(a: Alphabet, s: string, i: nat) {
    exists b: nat :: LineBegins(s, b, i) && AllSpace(a, s, b, i)
  }

  /** Three dashes alone on their line, but for space before, and space or a comment after. */
  ghost predicate Separates(a: Alphabet, s: string, i: nat) {
    && Follows(s, i, "---")
    && OnlySpaceBefore(a, s, i)
    && EndsLine(a, s, i + 3)
  }

  // ---- Symbols ---------------------------------------------------------------------------------------------

  const SYMBOLS: set<string> := {
    "(", ")", "{", "}", "[", "]", ",", ";", "@", "+", "*", "/", "%", ".", ":", "|", "=", "<", ">", "-",
    "...", "::", "|>", "==", "!=", "<=", ">=", "->"}

  /** A symbol stands at `i`, and no longer one does. */
  ghost predicate LongestSymbol(s: string, i: nat, t: string) {
    && t in SYMBOLS && Follows(s, i, t)
    && (forall u :: u in SYMBOLS && Follows(s, i, u) ==> |u| <= |t|)
  }

  ghost predicate NoSymbol(s: string, i: nat) {
    forall u :: u in SYMBOLS ==> !Follows(s, i, u)
  }

  // ---- Strings ---------------------------------------------------------------------------------------------

  /** How many backslashes stand directly before `j`, back to `from` at most. */
  function Backslashes(s: string, from: nat, j: nat): nat
    requires from <= j <= |s|
    decreases j - from
  {
    if j == from || s[j - 1] != '\\' then 0 else 1 + Backslashes(s, from, j - 1)
  }

  /** A quote is escaped by an odd number of backslashes before it. */
  predicate Escaped(s: string, from: nat, j: nat)
    requires from <= j <= |s|
  {
    Backslashes(s, from, j) % 2 == 1
  }

  /** The text that goes on at `i` is closed by the quote before `k`, the first that is not escaped. */
  predicate Closes(s: string, i: nat, k: nat) {
    && i < k <= |s| && s[k - 1] == '"' && !Escaped(s, i, k - 1)
    && (forall j :: i <= j < k - 1 && s[j] == '"' ==> Escaped(s, i, j))
  }

  // ---- Numbers and names -------------------------------------------------------------------------------------

  predicate PointDigit(s: string, n: nat) {
    n + 1 < |s| && s[n] == '.' && IsDigit(s[n + 1])
  }

  predicate AsciiWord(c: char) {
    'a' <= c <= 'z' || 'A' <= c <= 'Z' || IsDigit(c) || c == '_' || c == '-'
  }

  function IdentChar(a: Alphabet): char -> bool {
    c => c == '_' || a.alphanumeric(c)
  }

  function UriChar(a: Alphabet): char -> bool {
    c => !a.space(c) && c !in ",;)]}"
  }

  /** A hyphen and more of a scheme, up to the colon at `c`. */
  predicate SchemeTo(s: string, n: nat, c: nat) {
    && n < c < |s| && s[n] == '-' && s[c] == ':'
    && (forall j :: n <= j < c ==> AsciiWord(s[j]))
  }

  /** Where a name that came to `n` stops, if it may be a scheme. */
  ghost predicate SchemeStop(s: string, n: nat, m: nat) {
    SchemeTo(s, n, m) || (m == n && forall c: nat :: !SchemeTo(s, n, c))
  }

  ghost predicate NameStart(a: Alphabet, s: string, i: nat)
    requires i < |s|
  {
    (s[i] == '_' || a.alphabetic(s[i])) && !IsDigit(s[i]) && s[i] != '"' && NoSymbol(s, i)
  }

  /** The name's own characters go on to `n`. */
  ghost predicate StopsFrom(a: Alphabet, s: string, i: nat, inRecord: bool, n: nat, m: nat) {
    Extent(IdentChar(a), s, i + 1, n) && if inRecord then m == n else SchemeStop(s, n, m)
  }

  /** The name begun at `i`, with the rest of its scheme where it may have one, ends at `m`. */
  ghost predicate NameStops(a: Alphabet, s: string, i: nat, inRecord: bool, m: nat)
    requires i < |s|
  {
    exists n: nat :: StopsFrom(a, s, i, inRecord, n, m)
  }

  /** A colon stands at `m`, and the rest of the URI goes on to `k`. */
  predicate ColonThen(a: Alphabet, s: string, m: nat, k: nat) {
    m < |s| && s[m] == ':' && Extent(UriChar(a), s, m + 1, k)
  }

  // ---- Tokens ------------------------------------------------------------------------------------------------

  /** Digits from `i`, a point at `n`, and digits to `k`. */
  predicate PointAt(s: string, i: nat, n: nat, k: nat) {
    i < n && Extent(IsDigit, s, i, n) && PointDigit(s, n) && Extent(IsDigit, s, n + 1, k)
  }

  predicate IsInt(s: string, i: nat, k: nat, number: nat)
    requires i <= k <= |s|
  {
    AllDigits(s[i..k]) && ValueOf(s[i..k]) == number
  }

  ghost predicate IsName(a: Alphabet, s: string, i: nat, inRecord: bool, k: nat)
    requires i < |s|
  {
    NameStart(a, s, i) && NameStops(a, s, i, inRecord, k) && (!inRecord && k < |s| ==> s[k] != ':')
  }

  /** The text from `i` to `k` is this token, and no longer text from `i` is. */
  ghost predicate LexesAs(a: Alphabet, s: string, i: nat, inRecord: bool, token: Token, k: nat) {
    && i < k <= |s|
    && match token
       case Text(value) => s[i] == '"' && Closes(s, i + 1, k) && a.decode(s[i..k]) == Some(value)
       case Symbol(t) => LongestSymbol(s, i, t) && k == i + |t|
       case Int(number) =>
         Extent(IsDigit, s, i, k) && !PointDigit(s, k) && IsInt(s, i, k, number) && number <= I64_MAX
       case Decimal(numeral) =>
         && numeral == s[i..k]
         && exists n: nat :: PointAt(s, i, n, k)
       case Uri(uri) =>
         && uri == s[i..k] && NameStart(a, s, i) && !inRecord
         && exists m: nat :: NameStops(a, s, i, inRecord, m) && ColonThen(a, s, m, k)
       case Upper(name) => name == s[i..k] && a.uppercase(s[i]) && IsName(a, s, i, inRecord, k)
       case Ident(name) => name == s[i..k] && !a.uppercase(s[i]) && IsName(a, s, i, inRecord, k)
       case Eof => false
  }
}
