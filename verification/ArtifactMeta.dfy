/** Artifact references, their previews and the metadata files that hold them. */
module ArtifactMeta {
  import opened Common
  import opened Decimals
  import opened ArtifactPaging
  import opened ArtifactText

  const MAX_METADATA_BYTES := 65536
  const MAX_TITLE_BYTES := 1024
  const MAX_MIME_BYTES := 256
  const PREVIEW_BYTES := 1024
  const PREVIEW_BOUND := PREVIEW_BYTES + 64

  datatype ArtifactRef = ArtifactRef(
    uri: string, id: string, kind: string, mime: seq<byte>, title: Option<seq<byte>>, size: nat,
    preview: seq<byte>)

  function Ascii(s: string): (r: seq<byte>)
    ensures |r| == |s|
  {
    seq(|s|, i requires 0 <= i < |s| => if s[i] < '\U{80}' then s[i] as int else 63)
  }

  // ---- Identifiers -------------------------------------------------------------------------------

  const SCHEME := "artifact://"

  /** A canonical decimal identifier of a machine word. */
  function ParseId(s: string): (r: Option<nat>)
    ensures r.Some? ==> s == Digits(r.value) && r.value <= U64_MAX
  {
    match ParseWord(s)
    case Some(n) => if Digits(n) == s then Some(n) else None
    case None => None
  }

  lemma {:induction false} ParseIdPrinted(n: nat)
    requires n <= U64_MAX
    ensures ParseId(Digits(n)) == Some(n)
  {
    ParsePrinted(n);
  }

  function ParseUri(uri: string): Option<nat> {
    if |uri| >= |SCHEME| && uri[..|SCHEME|] == SCHEME then ParseId(uri[|SCHEME|..]) else None
  }

  // ---- Previews ------------------------------------------------------------------------------------

  function Floor(s: seq<byte>, i: nat): (r: nat)
    requires i < |s|
    ensures r <= i
  {
    if i > 0 && 0x80 <= s[i] <= 0xBF then Floor(s, i - 1) else i
  }

  /** Steps back from `i` to where a character starts: a byte that does not continue one. */
  method FloorBoundary(s: seq<byte>, i: nat) returns (r: nat)
    requires i < |s|
    ensures r <= i && (r == 0 || !(0x80 <= s[r] <= 0xBF))
    ensures forall j :: r < j <= i ==> 0x80 <= s[j] <= 0xBF
    ensures r == Floor(s, i)
  {
    r := i;
    while r > 0 && 0x80 <= s[r] <= 0xBF
      invariant r <= i
      invariant forall j :: r < j <= i ==> 0x80 <= s[j] <= 0xBF
      invariant Floor(s, i) == Floor(s, r)
    {
      r := r - 1;
    }
  }

  /** The text itself when it is short, else a prefix of whole characters with a marker. */
  function Preview(s: seq<byte>): seq<byte> {
    if |s| <= PREVIEW_BYTES then s
    else s[..Floor(s, PREVIEW_BYTES)] + [NL, 0xE2, 0x80, 0xA6] + Ascii(" (" + Digits(|s|) + " bytes total)")
  }

  lemma {:induction false} PreviewFits(s: seq<byte>)
    requires |s| <= U64_MAX
    ensures |Preview(s)| <= PREVIEW_BOUND
  {
    WordLength(|s|);
  }

  lemma {:induction false} FloorStops(s: seq<byte>, i: nat)
    requires i < |s|
    ensures var r := Floor(s, i); r == 0 || !(0x80 <= s[r] <= 0xBF)
    decreases i
  {
    if i > 0 && 0x80 <= s[i] <= 0xBF {
      FloorStops(s, i - 1);
    }
  }

  /** A text cut where a byte does not continue a character is a text. */
  lemma {:induction false} CutAtStart(s: seq<byte>, k: nat)
    requires Utf8(s) && k < |s| && !(0x80 <= s[k] <= 0xBF)
    ensures Utf8(s[..k])
    decreases |s|
  {
    if k > 0 {
      var n := CharLength(s);
      assert n <= k;
      CharOfPrefix(s, k);
      CutAtStart(s[n..], k - n);
      assert s[..k][n..] == s[n..][..k - n];
    }
  }

  /** The prefix a preview keeps of a text is a text. */
  lemma {:induction false} PreviewKeepsCharacters(s: seq<byte>, i: nat)
    requires Utf8(s) && i < |s|
    ensures Utf8(s[..Floor(s, i)])
    decreases |s|
  {
    var r := Floor(s, i);
    FloorStops(s, i);
    if r > 0 {
      CutAtStart(s, r);
    }
  }

  // ---- Metadata files -----------------------------------------------------------------------------

  function Hex(d: nat): byte
    requires d < 16
  {
    if d < 10 then 48 + d else 87 + d
  }

  /** The escape of one byte in a JSON string: two characters, a six-character code, or itself. */
  function Escape(b: byte): (r: seq<byte>)
    ensures 1 <= |r| <= 6
  {
    if b == 34 || b == 92 then [92, b]
    else if b == 8 then Ascii("\\b")
    else if b == 9 then Ascii("\\t")
    else if b == 10 then Ascii("\\n")
    else if b == 12 then Ascii("\\f")
    else if b == 13 then Ascii("\\r")
    else if b < 32 then Ascii("\\u00") + [Hex(b / 16), Hex(b % 16)]
    else [b]
  }

  function Escaped(s: seq<byte>): (r: seq<byte>)
    ensures |s| <= |r| <= 6 * |s|
  {
    if s == [] then [] else Escape(s[0]) + Escaped(s[1..])
  }

  function Quoted(s: seq<byte>): (r: seq<byte>)
    ensures |s| + 2 <= |r| <= 6 * |s| + 2
  {
    [34] + Escaped(s) + [34]
  }

  datatype Member = Member(key: string, value: seq<byte>)

  function Line(m: Member): (r: seq<byte>)
    ensures |r| == |m.key| + |m.value| + 6
  {
    Ascii("  \"" + m.key + "\": ") + m.value
  }

  function Lines(ms: seq<Member>): seq<byte> {
    if ms == [] then [] else if |ms| == 1 then Line(ms[0]) else Line(ms[0]) + Ascii(",\n") + Lines(ms[1..])
  }

  function Members(a: ArtifactRef): seq<Member> {
    [Member("uri", Quoted(Ascii(a.uri))),
     Member("id", Quoted(Ascii(a.id))),
     Member("kind", Quoted(Ascii(a.kind))),
     Member("mime", Quoted(a.mime)),
     Member("title", if a.title.Some? then Quoted(a.title.value) else Ascii("null")),
     Member("size_bytes", Ascii(Digits(a.size))),
     Member("preview", Quoted(a.preview))]
  }

  /** The pretty-printed JSON object of a reference. */
  function Encode(a: ArtifactRef): seq<byte> {
    Ascii("{\n") + Lines(Members(a)) + Ascii("\n}")
  }

  lemma {:induction false} LinesLength(ms: seq<Member>, bound: nat)
    requires forall i :: 0 <= i < |ms| ==> |ms[i].key| + |ms[i].value| <= bound
    ensures |Lines(ms)| <= |ms| * (bound + 8)
  {
    if |ms| > 1 {
      LinesLength(ms[1..], bound);
    }
  }

  /** What the loader asks of a reference found under `stem`. */
  predicate ValidRef(stem: string, a: ArtifactRef) {
    && ParseUri(a.uri).Some?
    && a.id == stem
    && Digits(ParseUri(a.uri).value) == stem
    && a.uri == SCHEME + stem
    && a.kind == "text"
    && |a.mime| <= MAX_MIME_BYTES
    && (a.title.Some? ==> |a.title.value| <= MAX_TITLE_BYTES)
    && |a.preview| <= PREVIEW_BOUND
  }

  /** The reference a writer makes. */
  function MakeRef(id: nat, content: seq<byte>, title: Option<seq<byte>>, mime: seq<byte>): ArtifactRef {
    ArtifactRef(SCHEME + Digits(id), Digits(id), "text", mime, title, |content|, Preview(content))
  }

  lemma {:induction false} EncodedSize(a: ArtifactRef)
    requires |a.uri| <= 31 && |a.id| <= 20 && a.kind == "text" && |a.mime| <= MAX_MIME_BYTES
    requires a.title.Some? ==> |a.title.value| <= MAX_TITLE_BYTES
    requires |Digits(a.size)| <= 20 && |a.preview| <= PREVIEW_BOUND
    ensures |Encode(a)| <= MAX_METADATA_BYTES
  {
    var bound := 6 * PREVIEW_BOUND + 12;
    var ms := Members(a);
    assert |Ascii("null")| <= 4;
    forall i | 0 <= i < |ms| ensures |ms[i].key| + |ms[i].value| <= bound {
    }
    LinesLength(ms, bound);
  }

  /** What a writer makes, the loader accepts: fields, preview and encoded size. */
  lemma {:induction false} WrittenRefLoads(id: nat, content: seq<byte>, title: Option<seq<byte>>, mime: seq<byte>)
    requires id <= U64_MAX && |content| <= U64_MAX
    requires |mime| <= MAX_MIME_BYTES && (title.Some? ==> |title.value| <= MAX_TITLE_BYTES)
    ensures var a := MakeRef(id, content, title, mime);
      ValidRef(Digits(id), a) && |Encode(a)| <= MAX_METADATA_BYTES
  {
    var a := MakeRef(id, content, title, mime);
    PreviewFits(content);
    ParseIdPrinted(id);
    assert a.uri[..|SCHEME|] == SCHEME && a.uri[|SCHEME|..] == Digits(id);
    WordLength(id);
    WordLength(|content|);
    EncodedSize(a);
  }
}
