/**
 * Reading a metadata file back: the part of JSON that the writer uses, read by a reader of its own, to show that
 * what is written is what was meant.
 */
module ArtifactCodec {
  import opened Common
  import opened Decimals
  import opened ArtifactMeta

  datatype Datum = Str(text: seq<byte>) | Num(n: nat) | Null

  function Print(d: Datum): seq<byte> {
    match d
    case Str(text) => Quoted(text)
    case Num(n) => Ascii(Digits(n))
    case Null => Ascii("null")
  }

  // ---- Strings ----------------------------------------------------------------------------------------

  function HexValue(b: byte): Option<nat> {
    if 48 <= b <= 57 then Some(b - 48)
    else if 97 <= b <= 102 then Some(b - 87)
    else if 65 <= b <= 70 then Some(b - 55)
    else None
  }

  /** The byte that a one-letter escape stands for. */
  function Letter(b: byte): Option<byte> {
    if b == 34 || b == 92 || b == 47 then Some(b)
    else if b == 98 then Some(8)
    else if b == 116 then Some(9)
    else if b == 110 then Some(10)
    else if b == 102 then Some(12)
    else if b == 114 then Some(13)
    else None
  }

  /** The byte that a four-digit code stands for, if it is below 0x80. */
  function CodeByte(s: seq<byte>): Option<byte> {
    if |s| < 4 || s[0] != 48 || s[1] != 48 then None
    else
      match (HexValue(s[2]), HexValue(s[3]))
      case (Some(high), Some(low)) => if high < 8 then Some(16 * high + low) else None
      case _ => None
  }

  function Prepend(b: byte, read: Option<(seq<byte>, seq<byte>)>): Option<(seq<byte>, seq<byte>)> {
    match read
    case Some((text, rest)) => Some(([b] + text, rest))
    case None => None
  }

  /** The contents of a string up to its closing quote, and what follows. */
  function ReadText(s: seq<byte>): Option<(seq<byte>, seq<byte>)>
    decreases |s|
  {
    if s == [] || s[0] < 32 then None
    else if s[0] == 34 then Some(([], s[1..]))
    else if s[0] != 92 then Prepend(s[0], ReadText(s[1..]))
    else if |s| == 1 then None
    else if s[1] == 117 then
      match CodeByte(s[2..])
      case Some(b) => Prepend(b, ReadText(s[6..]))
      case None => None
    else
      match Letter(s[1])
      case Some(b) => Prepend(b, ReadText(s[2..]))
      case None => None
  }

  lemma {:induction false} CodeReadsBack(b: byte, rest: seq<byte>)
    requires b < 32
    ensures CodeByte([48, 48, Hex(b / 16), Hex(b % 16)] + rest) == Some(b)
  {
    var high, low := b / 16, b % 16;
    assert HexValue(Hex(high)) == Some(high) && HexValue(Hex(low)) == Some(low);
  }

  lemma {:induction false} EscapeReadsBack(b: byte, rest: seq<byte>)
    ensures ReadText(Escape(b) + rest) == Prepend(b, ReadText(rest))
  {
    var s := Escape(b) + rest;
    if b == 34 || b == 92 || b == 8 || b == 9 || b == 10 || b == 12 || b == 13 {
      assert s[0] == 92 && Letter(s[1]) == Some(b) && s[2..] == rest;
    } else if b < 32 {
      CodeReadsBack(b, rest);
      assert s[0] == 92 && s[1] == 117 && s[2..] == [48, 48, Hex(b / 16), Hex(b % 16)] + rest && s[6..] == rest;
    } else {
      assert s[0] == b && s[1..] == rest;
    }
  }

  lemma {:induction false} Regroup(a: seq<byte>, b: seq<byte>, c: seq<byte>)
    ensures a + b + c == a + (b + c)
  {
  }

  lemma {:induction false} EscapedReadsBack(t: seq<byte>, rest: seq<byte>)
    ensures ReadText(Escaped(t) + ([34] + rest)) == Some((t, rest))
  {
    if t == [] {
      assert Escaped(t) + ([34] + rest) == [34] + rest && ([34] + rest)[1..] == rest;
    } else {
      var end := [34] + rest;
      EscapedReadsBack(t[1..], rest);
      EscapeReadsBack(t[0], Escaped(t[1..]) + end);
      Regroup(Escape(t[0]), Escaped(t[1..]), end);
      assert t == [t[0]] + t[1..];
    }
  }

  // ---- Numbers, and the three kinds of values -------------------------------------------------------------

  predicate DigitByte(b: byte) {
    48 <= b <= 57
  }

  /** How many digits come first. */
  function Run(s: seq<byte>): (n: nat)
    ensures n <= |s| && forall i :: 0 <= i < n ==> DigitByte(s[i])
  {
    if s == [] || !DigitByte(s[0]) then 0
    else
      assert forall i :: 1 <= i < |s| ==> s[i] == s[1..][i - 1];
      1 + Run(s[1..])
  }

  function Chars(s: seq<byte>): (r: string)
    ensures |r| == |s| && forall i :: 0 <= i < |s| ==> r[i] == s[i] as char
  {
    seq(|s|, i requires 0 <= i < |s| => s[i] as char)
  }

  predicate IsAscii(s: string) {
    forall i :: 0 <= i < |s| ==> s[i] < '\U{80}'
  }

  lemma {:induction false} AsciiReadsBack(s: string)
    requires IsAscii(s)
    ensures Chars(Ascii(s)) == s
  {
  }

  function ReadDatum(s: seq<byte>): Option<(Datum, seq<byte>)> {
    if s == [] then None
    else if s[0] == 34 then
      match ReadText(s[1..])
      case Some((text, rest)) => Some((Str(text), rest))
      case None => None
    else if Ascii("null") <= s then Some((Null, s[4..]))
    else if Run(s) > 0 then Some((Num(ValueOf(Chars(s[..Run(s)]))), s[Run(s)..]))
    else None
  }

  lemma {:induction false} RunOf(digits: seq<byte>, rest: seq<byte>)
    requires forall i :: 0 <= i < |digits| ==> DigitByte(digits[i])
    requires rest != [] ==> !DigitByte(rest[0])
    ensures Run(digits + rest) == |digits|
  {
    if digits == [] {
      assert digits + rest == rest;
    } else {
      assert (digits + rest)[1..] == digits[1..] + rest;
      RunOf(digits[1..], rest);
    }
  }

  lemma {:induction false} NumberReadsBack(n: nat, rest: seq<byte>)
    requires rest != [] ==> !DigitByte(rest[0])
    ensures ReadDatum(Ascii(Digits(n)) + rest) == Some((Num(n), rest))
  {
    DigitsValue(n);
    var digits := Ascii(Digits(n));
    assert forall i :: 0 <= i < |Digits(n)| ==> IsDigit(Digits(n)[i]);
    RunOf(digits, rest);
    AsciiReadsBack(Digits(n));
    var s := digits + rest;
    assert s[..|digits|] == digits && s[|digits|..] == rest;
    assert DigitByte(s[0]) && Ascii("null")[0] == 110;
  }

  lemma {:induction false} DatumReadsBack(d: Datum, rest: seq<byte>)
    requires rest != [] ==> !DigitByte(rest[0])
    ensures ReadDatum(Print(d) + rest) == Some((d, rest))
  {
    match d
    case Str(text) =>
      EscapedReadsBack(text, rest);
      assert (Print(d) + rest)[1..] == Escaped(text) + ([34] + rest);
    case Num(n) => NumberReadsBack(n, rest);
    case Null =>
      assert (Print(d) + rest)[..4] == Ascii("null") && (Print(d) + rest)[4..] == rest;
      assert Ascii("null")[0] == 110;
  }

  // ---- Members ----------------------------------------------------------------------------------------------

  function Skip(s: seq<byte>, prefix: seq<byte>): Option<seq<byte>> {
    if prefix <= s then Some(s[|prefix|..]) else None
  }

  lemma {:induction false} SkipReadsBack(prefix: seq<byte>, rest: seq<byte>)
    ensures Skip(prefix + rest, prefix) == Some(rest)
  {
  }

  /** One member under the given key, and what follows. */
  function ReadMember(s: seq<byte>, key: string): Option<(Datum, seq<byte>)> {
    match Skip(s, Ascii("  \"" + key + "\": "))
    case Some(t) => ReadDatum(t)
    case None => None
  }

  /** The members under the given keys, with commas between them. */
  function ReadMembers(s: seq<byte>, keys: seq<string>): Option<(seq<Datum>, seq<byte>)>
    decreases |keys|
  {
    if keys == [] then Some(([], s))
    else
      match ReadMember(s, keys[0])
      case None => None
      case Some((d, t)) =>
        if |keys| == 1 then Some(([d], t))
        else
          match Skip(t, Ascii(",\n"))
          case None => None
          case Some(u) =>
            match ReadMembers(u, keys[1..])
            case None => None
            case Some((ds, v)) => Some(([d] + ds, v))
  }

  lemma {:induction false} MemberReadsBack(m: Member, d: Datum, rest: seq<byte>)
    requires m.value == Print(d) && (rest != [] ==> !DigitByte(rest[0]))
    ensures ReadMember(Line(m) + rest, m.key) == Some((d, rest))
  {
    var prefix := Ascii("  \"" + m.key + "\": ");
    assert Line(m) + rest == prefix + (m.value + rest);
    SkipReadsBack(prefix, m.value + rest);
    DatumReadsBack(d, rest);
  }

  /** Each member holds what is to be read. */
  predicate Prints(ms: seq<Member>, keys: seq<string>, ds: seq<Datum>) {
    && |ms| == |keys| == |ds|
    && forall i :: 0 <= i < |ms| ==> ms[i].key == keys[i] && ms[i].value == Print(ds[i])
  }

  lemma {:induction false} LinesCons(ms: seq<Member>, rest: seq<byte>)
    requires |ms| > 1
    ensures Lines(ms) + rest == Line(ms[0]) + (Ascii(",\n") + (Lines(ms[1..]) + rest))
  {
    Regroup(Line(ms[0]) + Ascii(",\n"), Lines(ms[1..]), rest);
    Regroup(Line(ms[0]), Ascii(",\n"), Lines(ms[1..]) + rest);
  }

  lemma {:induction false} OneMoreReadsBack(
    m: Member, keys: seq<string>, d: Datum, others: seq<byte>, ds: seq<Datum>, rest: seq<byte>)
    requires |keys| > 1 && m.key == keys[0] && m.value == Print(d)
    requires ReadMembers(others, keys[1..]) == Some((ds, rest))
    ensures ReadMembers(Line(m) + (Ascii(",\n") + others), keys) == Some(([d] + ds, rest))
  {
    var comma := Ascii(",\n");
    assert comma[0] == 44;
    MemberReadsBack(m, d, comma + others);
    SkipReadsBack(comma, others);
  }

  lemma {:induction false} MembersReadBack(ms: seq<Member>, keys: seq<string>, ds: seq<Datum>, rest: seq<byte>)
    requires Prints(ms, keys, ds) && (rest != [] ==> !DigitByte(rest[0]))
    ensures ReadMembers(Lines(ms) + rest, keys) == Some((ds, rest))
    decreases |ms|
  {
    if |ms| == 0 {
      assert Lines(ms) + rest == rest;
    } else if |ms| == 1 {
      MemberReadsBack(ms[0], ds[0], rest);
      assert ds == [ds[0]];
    } else {
      MembersReadBack(ms[1..], keys[1..], ds[1..], rest);
      OneMoreReadsBack(ms[0], keys, ds[0], Lines(ms[1..]) + rest, ds[1..], rest);
      LinesCons(ms, rest);
      assert ds == [ds[0]] + ds[1..];
    }
  }

  // ---- References ------------------------------------------------------------------------------------------------

  const KEYS := ["uri", "id", "kind", "mime", "title", "size_bytes", "preview"]

  function RefOf(ds: seq<Datum>): Option<ArtifactRef> {
    if |ds| == 7 && ds[0].Str? && ds[1].Str? && ds[2].Str? && ds[3].Str? && !ds[4].Num? && ds[5].Num? && ds[6].Str?
    then
      Some(ArtifactRef(
        Chars(ds[0].text), Chars(ds[1].text), Chars(ds[2].text), ds[3].text,
        if ds[4].Str? then Some(ds[4].text) else None, ds[5].n, ds[6].text))
    else None
  }

  /** The reference that a metadata file holds, if it is one. */
  function Decode(s: seq<byte>): Option<ArtifactRef> {
    match Skip(s, Ascii("{\n"))
    case None => None
    case Some(t) =>
      match ReadMembers(t, KEYS)
      case None => None
      case Some((ds, rest)) => if rest == Ascii("\n}") then RefOf(ds) else None
  }

  function DataOf(a: ArtifactRef): seq<Datum> {
    [Str(Ascii(a.uri)), Str(Ascii(a.id)), Str(Ascii(a.kind)), Str(a.mime),
     if a.title.Some? then Str(a.title.value) else Null, Num(a.size), Str(a.preview)]
  }

  lemma {:induction false} DataReadBack(a: ArtifactRef)
    requires IsAscii(a.uri) && IsAscii(a.id) && IsAscii(a.kind)
    ensures RefOf(DataOf(a)) == Some(a) && Prints(Members(a), KEYS, DataOf(a))
  {
    AsciiReadsBack(a.uri);
    AsciiReadsBack(a.id);
    AsciiReadsBack(a.kind);
  }

  /** An encoded reference decodes to itself, whatever bytes its title, type and preview hold. */
  lemma {:induction false} EncodedRefDecodes(a: ArtifactRef)
    requires IsAscii(a.uri) && IsAscii(a.id) && IsAscii(a.kind)
    ensures Decode(Encode(a)) == Some(a)
  {
    var open, lines, close := Ascii("{\n"), Lines(Members(a)), Ascii("\n}");
    assert Encode(a) == open + (lines + close);
    SkipReadsBack(open, lines + close);
    DataReadBack(a);
    assert close[0] == 10;
    MembersReadBack(Members(a), KEYS, DataOf(a), close);
  }

  /** What a writer writes decodes to the reference it made. */
  lemma {:induction false} WrittenRefDecodes(id: nat, content: seq<byte>, title: Option<seq<byte>>, mime: seq<byte>)
    ensures var a := MakeRef(id, content, title, mime); Decode(Encode(a)) == Some(a)
  {
    var a := MakeRef(id, content, title, mime);
    DigitsValue(id);
    assert forall i :: 0 <= i < |a.id| ==> IsDigit(a.id[i]);
    EncodedRefDecodes(a);
  }
}
