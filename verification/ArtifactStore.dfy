/** Handles on one session's artifacts and blobs: opening, and the two kinds of writes. */
module ArtifactStore {
  import opened Common
  import opened Decimals
  import opened Sums
  import opened ArtifactPaging
  import opened ArtifactMeta
  import opened ArtifactQuota

  datatype Disk = Disk(dir: Directory, space: BlobSpace)

  // ---- States the writers keep --------------------------------------------------------------------

  ghost function ContentBytes(disk: Disk): nat {
    Total(Sizes(disk.dir.metas)) + Total(RefSizes(disk.space.refs))
  }

  ghost predicate OnlyLast(locks: set<string>) {
    forall stem :: stem in locks ==> ParseId(stem) == Some(U64_MAX)
  }

  ghost predicate AllBelow(stems: set<string>, n: nat) {
    forall stem :: stem in stems ==> ParseId(stem).Some? && ParseId(stem).value < n
  }

  /** The last identifier can be locked but never published. */
  ghost predicate TidyDirectory(d: Directory) {
    && d.texts.Keys == d.metas.Keys
    && d.strays == {}
    && OnlyLast(d.locks)
    && AllBelow(d.metas.Keys, U64_MAX)
  }

  lemma {:induction false} OneLastLock(locks: set<string>)
    requires OnlyLast(locks)
    ensures |locks| <= 1
  {
    if locks != {} {
      var one :| one in locks;
      assert locks == {one};
    }
  }

  lemma {:induction false} ParsedIdIs(n: nat)
    requires ParseId(Digits(n)).Some?
    ensures ParseId(Digits(n)).value == n
  {
    DigitsValue(n);
    DigitsValue(ParseId(Digits(n)).value);
  }

  lemma {:induction false} LargestBelow(stems: set<string>, maxId: Option<nat>, n: nat)
    requires LargestOf(stems, maxId)
    ensures AllBelow(stems, n) <==> maxId == None || maxId.value < n
  {
    if maxId.Some? {
      ParsedIdIs(maxId.value);
    }
  }

  /** Blobs hold the bytes their hash is of. */
  ghost predicate TidySpace(s: BlobSpace) {
    && s.strays == {}
    && forall h :: h in s.blobs ==> s.blobs[h] == h.bytes
  }

  ghost predicate GoodDirectory(limits: Limits, d: Directory) {
    Acceptable(d, limits) && TidyDirectory(d)
  }

  ghost predicate GoodSpace(limits: Limits, s: BlobSpace) {
    BlobsAcceptable(s, limits) && TidySpace(s)
  }

  ghost predicate Good(limits: Limits, disk: Disk) {
    && GoodDirectory(limits, disk.dir)
    && GoodSpace(limits, disk.space)
    && ContentBytes(disk) <= limits.maxSessionBytes
  }

  /** What opening a handle asks of the disk. */
  ghost predicate Openable(limits: Limits, disk: Disk) {
    && ValidLimits(limits)
    && Acceptable(disk.dir, limits)
    && BlobsAcceptable(disk.space, limits)
    && ContentBytes(disk) <= limits.maxSessionBytes
    && AllBelow(disk.dir.metas.Keys, U64_MAX)
  }

  const EMPTY := Disk(Directory(map[], map[], {}, {}), BlobSpace(map[], {}, map[]))

  ghost predicate ScannableLimits(limits: Limits) {
    && ValidLimits(limits)
    && 3 * limits.maxArtifactCount + 64 <= U64_MAX
    && 2 * limits.maxBlobCount + 32 <= U64_MAX
  }

  lemma {:induction false} EmptyIsGood(limits: Limits)
    requires ScannableLimits(limits)
    ensures Good(limits, EMPTY)
  {
    assert Lengths(EMPTY.dir.metas) == map[] && Sizes(EMPTY.dir.metas) == map[];
    assert RefLengths(EMPTY.space.refs) == map[] && RefSizes(EMPTY.space.refs) == map[];
  }

  // ---- The next identifier --------------------------------------------------------------------------

  ghost function Largest(stems: set<string>): Option<nat> {
    if exists m :: LargestOf(stems, m) then var m :| LargestOf(stems, m); m else None
  }

  lemma {:induction false} LargestUnique(stems: set<string>, m: Option<nat>)
    requires LargestOf(stems, m)
    ensures Largest(stems) == m
  {
    var n := Largest(stems);
    assert LargestOf(stems, n);
    if m.Some? {
      assert ParseId(Digits(m.value)).value <= n.value && ParseId(Digits(n.value)).value <= m.value;
      ParsedIdIs(m.value);
      ParsedIdIs(n.value);
    }
  }

  /** Above every published identifier and not below the handle's own counter. */
  ghost function FreeId(d: Directory, next: nat): nat {
    var m := Largest(d.metas.Keys);
    Max(next, if m.Some? then m.value + 1 else 0)
  }

  lemma {:induction false} FreeIdIsFree(d: Directory, next: nat, maxId: Option<nat>)
    requires TidyDirectory(d) && LargestOf(d.metas.Keys, maxId) && next <= U64_MAX
    ensures FreeId(d, next) == Max(next, if maxId.Some? then maxId.value + 1 else 0) <= U64_MAX
    ensures Digits(FreeId(d, next)) !in d.metas
    ensures AllBelow(d.metas.Keys, FreeId(d, next))
  {
    LargestUnique(d.metas.Keys, maxId);
    var id := FreeId(d, next);
    if maxId.Some? {
      ParsedIdIs(maxId.value);
    }
    if Digits(id) in d.metas {
      ParsedIdIs(id);
      assert false;
    }
  }

  // ---- Writing a text -------------------------------------------------------------------------------

  datatype TextResult = TextResult(disk: Disk, next: nat, answer: Result<ArtifactRef, Fault>)

  /** A reference of the given encoded length and its text, put beside the others. */
  function StoreText(d: Directory, a: ArtifactRef, length: nat, content: seq<byte>): Directory {
    d.(metas := d.metas[a.id := MetaFile(length, Some(a))], texts := d.texts[a.id := content])
  }

  /** The directory holds this text, and under the same identifier a reference that says so. */
  predicate HoldsText(
    d: Directory, a: ArtifactRef, content: seq<byte>, title: Option<seq<byte>>, mime: seq<byte>)
  {
    && a.id in d.texts && d.texts[a.id] == content
    && a.id in d.metas && d.metas[a.id].ref == Some(a)
    && a.uri == SCHEME + a.id && a.kind == "text"
    && a.title == title && a.mime == mime && a.size == |content| && a.preview == Preview(content)
  }

  /** The limits on the pieces of a text. */
  function PieceFault(limits: Limits, size: nat, title: Option<seq<byte>>, mime: seq<byte>): Option<Fault> {
    if size > limits.maxArtifactBytes then Some(Quota("artifact"))
    else if title.Some? && |title.value| > MAX_TITLE_BYTES then Some(Quota("artifact title"))
    else if |mime| > MAX_MIME_BYTES then Some(Quota("artifact MIME"))
    else None
  }

  /** The limits on the session a text is to join. */
  ghost function SessionFault(limits: Limits, disk: Disk, size: nat): Option<Fault> {
    if |disk.dir.metas| >= limits.maxArtifactCount then Some(Quota("artifact count"))
    else if ContentBytes(disk) + size > limits.maxSessionBytes then Some(Quota("session"))
    else None
  }

  /** Why a text is refused before an identifier is taken for it. */
  ghost function TextRefusal(limits: Limits, disk: Disk, a: ArtifactRef): Option<Fault> {
    var fault := PieceFault(limits, a.size, a.title, a.mime);
    if fault.Some? then fault else SessionFault(limits, disk, a.size)
  }

  function WithLock(d: Directory, id: nat): Directory {
    d.(locks := d.locks + {Digits(id)})
  }

  /** What a text write does to a good disk, `a` being the reference it makes and `length` its encoded length. */
  ghost function PutTextSpec(
    limits: Limits, disk: Disk, next: nat, id: nat, a: ArtifactRef, length: nat, content: seq<byte>): TextResult
  {
    var refusal := TextRefusal(limits, disk, a);
    if refusal.Some? then TextResult(disk, next, Err(refusal.value))
    else if id >= U64_MAX then TextResult(disk.(dir := WithLock(disk.dir, id)), next, Err(Integrity))
    else if Total(Lengths(disk.dir.metas)) + length > limits.maxSessionMetadataBytes then
      TextResult(disk, id + 1, Err(Quota("session artifact metadata")))
    else TextResult(disk.(dir := StoreText(disk.dir, a, length, content)), id + 1, Ok(a))
  }

  lemma {:induction false} StoreTextTotals(d: Directory, a: ArtifactRef, length: nat, content: seq<byte>)
    requires a.id !in d.metas
    ensures var e := StoreText(d, a, length, content);
      && Total(Lengths(e.metas)) == Total(Lengths(d.metas)) + length
      && Total(Sizes(e.metas)) == Total(Sizes(d.metas)) + a.size
      && |e.metas| == |d.metas| + 1
  {
    var e := StoreText(d, a, length, content);
    assert Lengths(e.metas) == Lengths(d.metas)[a.id := length];
    TotalPutsIn(Lengths(d.metas), a.id, length);
    assert Sizes(e.metas) == Sizes(d.metas)[a.id := a.size];
    TotalPutsIn(Sizes(d.metas), a.id, a.size);
    assert e.metas.Keys == d.metas.Keys + {a.id};
    assert |e.metas| == |e.metas.Keys| && |d.metas| == |d.metas.Keys|;
  }

  lemma {:induction false} StoreTextLoads(d: Directory, a: ArtifactRef, length: nat, content: seq<byte>)
    requires forall stem :: stem in d.metas ==> Loads(d, stem)
    requires a.id !in d.metas && ValidRef(a.id, a) && length <= MAX_METADATA_BYTES && a.size == |content|
    ensures var e := StoreText(d, a, length, content); forall stem :: stem in e.metas ==> Loads(e, stem)
  {
    var e := StoreText(d, a, length, content);
    forall stem | stem in e.metas ensures Loads(e, stem) {
      if stem != a.id {
        assert Loads(d, stem);
      }
    }
  }

  lemma {:induction false} StoreTextTidy(d: Directory, a: ArtifactRef, length: nat, content: seq<byte>)
    requires TidyDirectory(d) && a.id !in d.metas && ParseId(a.id).Some? && ParseId(a.id).value < U64_MAX
    ensures TidyDirectory(StoreText(d, a, length, content))
  {
  }

  lemma {:induction false} FewEntries(d: Directory)
    requires TidyDirectory(d)
    ensures EntryCount(d) <= 2 * |d.metas| + 1
  {
    assert |d.texts| == |d.texts.Keys| && |d.metas| == |d.metas.Keys|;
    OneLastLock(d.locks);
  }

  lemma {:induction false} StoreTextAcceptable(
    limits: Limits, d: Directory, a: ArtifactRef, length: nat, content: seq<byte>)
    requires Acceptable(d, limits) && a.id !in d.metas && ValidRef(a.id, a) && a.size == |content|
    requires |d.metas| < limits.maxArtifactCount && length <= MAX_METADATA_BYTES
    requires EntryCount(StoreText(d, a, length, content)) <= 3 * limits.maxArtifactCount + 64
    requires Total(Sizes(d.metas)) + |content| <= limits.maxSessionBytes
    requires Total(Lengths(d.metas)) + length <= limits.maxSessionMetadataBytes
    ensures Acceptable(StoreText(d, a, length, content), limits)
  {
    StoreTextTotals(d, a, length, content);
    StoreTextLoads(d, a, length, content);
  }

  /** Whatever a writer may store keeps the directory one that loads. */
  lemma {:induction false} StoreTextGood(
    limits: Limits, d: Directory, a: ArtifactRef, length: nat, content: seq<byte>)
    requires GoodDirectory(limits, d) && a.id !in d.metas && ValidRef(a.id, a) && a.size == |content|
    requires ParseId(a.id).Some? && ParseId(a.id).value < U64_MAX
    requires |d.metas| < limits.maxArtifactCount && length <= MAX_METADATA_BYTES
    requires Total(Sizes(d.metas)) + |content| <= limits.maxSessionBytes
    requires Total(Lengths(d.metas)) + length <= limits.maxSessionMetadataBytes
    ensures GoodDirectory(limits, StoreText(d, a, length, content))
  {
    StoreTextTidy(d, a, length, content);
    StoreTextTotals(d, a, length, content);
    FewEntries(StoreText(d, a, length, content));
    StoreTextAcceptable(limits, d, a, length, content);
  }

  lemma {:induction false} LockTidy(d: Directory, id: nat)
    requires TidyDirectory(d) && id == U64_MAX
    ensures TidyDirectory(WithLock(d, id))
  {
    ParseIdPrinted(id);
  }

  lemma {:induction false} LockGood(limits: Limits, d: Directory, id: nat)
    requires GoodDirectory(limits, d) && id == U64_MAX
    ensures GoodDirectory(limits, WithLock(d, id))
  {
    LockTidy(d, id);
    FewEntries(WithLock(d, id));
    forall stem | stem in d.metas ensures Loads(WithLock(d, id), stem) {
      assert Loads(d, stem);
    }
  }

  lemma {:induction false} GoodWith(limits: Limits, disk: Disk, d: Directory)
    requires Good(limits, disk) && GoodDirectory(limits, d)
    requires Total(Sizes(d.metas)) + Total(RefSizes(disk.space.refs)) <= limits.maxSessionBytes
    ensures Good(limits, disk.(dir := d))
  {
  }

  lemma {:induction false} StoredGood(
    limits: Limits, disk: Disk, id: nat, a: ArtifactRef, length: nat, content: seq<byte>)
    requires Good(limits, disk) && ParseId(a.id) == Some(id) && id < U64_MAX && a.id !in disk.dir.metas
    requires TextRefusal(limits, disk, a) == None && ValidRef(a.id, a) && a.size == |content|
    requires length <= MAX_METADATA_BYTES
    requires Total(Lengths(disk.dir.metas)) + length <= limits.maxSessionMetadataBytes
    ensures Good(limits, disk.(dir := StoreText(disk.dir, a, length, content)))
  {
    StoreTextGood(limits, disk.dir, a, length, content);
    StoreTextTotals(disk.dir, a, length, content);
    GoodWith(limits, disk, StoreText(disk.dir, a, length, content));
  }

  lemma {:induction false} PutTextKeepsGood(
    limits: Limits, disk: Disk, next: nat, id: nat, a: ArtifactRef, length: nat, content: seq<byte>)
    requires Good(limits, disk) && next <= id <= U64_MAX && ParseId(a.id) == Some(id) && a.id !in disk.dir.metas
    requires a.size == |content|
    requires TextRefusal(limits, disk, a) == None ==> ValidRef(a.id, a) && length <= MAX_METADATA_BYTES
    ensures Good(limits, PutTextSpec(limits, disk, next, id, a, length, content).disk)
  {
    var after := PutTextSpec(limits, disk, next, id, a, length, content).disk;
    if TextRefusal(limits, disk, a).Some? {
      assert after == disk;
    } else if id >= U64_MAX {
      LockGood(limits, disk.dir, id);
      GoodWith(limits, disk, WithLock(disk.dir, id));
      assert after == disk.(dir := WithLock(disk.dir, id));
    } else if Total(Lengths(disk.dir.metas)) + length <= limits.maxSessionMetadataBytes {
      StoredGood(limits, disk, id, a, length, content);
      assert after == disk.(dir := StoreText(disk.dir, a, length, content));
    } else {
      assert after == disk;
    }
  }

  // ---- Writing a blob -------------------------------------------------------------------------------

  datatype BlobResult = BlobResult(disk: Disk, answer: Result<Hash, Fault>)

  /** The limits on the session a new blob reference is to join. */
  ghost function BlobFault(limits: Limits, disk: Disk, size: nat, length: nat): Option<Fault> {
    if |disk.space.refs| >= limits.maxBlobCount then Some(Quota("blob reference count"))
    else if Total(RefLengths(disk.space.refs)) + length > limits.maxSessionBlobRefBytes then
      Some(Quota("session blob-reference metadata"))
    else if ContentBytes(disk) + size > limits.maxSessionBytes then Some(Quota("session"))
    else None
  }

  ghost function BlobRefusal(limits: Limits, disk: Disk, bytes: seq<byte>, text: string): Option<Fault> {
    if |bytes| > limits.maxBlobBytes then Some(Quota("blob"))
    else if Sha256(bytes) in disk.space.refs then None
    else BlobFault(limits, disk, |bytes|, |text|)
  }

  /** The blob, and the session's reference to it with its printed size. */
  function StoreBlob(s: BlobSpace, bytes: seq<byte>, text: string): BlobSpace {
    s.(blobs := s.blobs[Sha256(bytes) := bytes], refs := s.refs[Sha256(bytes) := text])
  }

  /** What a blob write does to a good disk, `text` being the printed size. A blob already referenced costs nothing. */
  ghost function PutBlobSpec(limits: Limits, disk: Disk, bytes: seq<byte>, text: string): BlobResult {
    var refusal := BlobRefusal(limits, disk, bytes, text);
    if refusal.Some? then BlobResult(disk, Err(refusal.value))
    else if Sha256(bytes) in disk.space.refs then BlobResult(disk, Ok(Sha256(bytes)))
    else BlobResult(disk.(space := StoreBlob(disk.space, bytes, text)), Ok(Sha256(bytes)))
  }

  lemma {:induction false} StoreBlobTotals(s: BlobSpace, bytes: seq<byte>, text: string)
    requires Sha256(bytes) !in s.refs && ParseId(text) == Some(|bytes|)
    ensures var t := StoreBlob(s, bytes, text);
      && Total(RefLengths(t.refs)) == Total(RefLengths(s.refs)) + |text|
      && Total(RefSizes(t.refs)) == Total(RefSizes(s.refs)) + |bytes|
      && |t.refs| == |s.refs| + 1
  {
    var t, h := StoreBlob(s, bytes, text), Sha256(bytes);
    assert RefLengths(t.refs) == RefLengths(s.refs)[h := |text|];
    TotalPutsIn(RefLengths(s.refs), h, |text|);
    assert RefSizes(t.refs) == RefSizes(s.refs)[h := |bytes|];
    TotalPutsIn(RefSizes(s.refs), h, |bytes|);
    assert t.refs.Keys == s.refs.Keys + {h};
    assert |t.refs| == |t.refs.Keys| && |s.refs| == |s.refs.Keys|;
  }

  lemma {:induction false} StoreBlobLoads(limits: Limits, s: BlobSpace, bytes: seq<byte>, text: string)
    requires forall h :: h in s.refs ==> RefLoads(s, limits, h)
    requires ParseId(text) == Some(|bytes|) && |text| <= 32 && |bytes| <= limits.maxBlobBytes
    requires TidySpace(s)
    ensures var t := StoreBlob(s, bytes, text); TidySpace(t) && forall h :: h in t.refs ==> RefLoads(t, limits, h)
  {
    var t := StoreBlob(s, bytes, text);
    forall h | h in t.refs ensures RefLoads(t, limits, h) {
      if h != Sha256(bytes) {
        assert RefLoads(s, limits, h);
      }
    }
  }

  lemma {:induction false} StoreBlobGoodSpace(limits: Limits, s: BlobSpace, bytes: seq<byte>, text: string)
    requires GoodSpace(limits, s) && Sha256(bytes) !in s.refs && |s.refs| < limits.maxBlobCount
    requires ParseId(text) == Some(|bytes|) && |text| <= 32 && |bytes| <= limits.maxBlobBytes
    requires Total(RefLengths(s.refs)) + |text| <= limits.maxSessionBlobRefBytes
    requires Total(RefSizes(s.refs)) + |bytes| <= limits.maxSessionBytes
    ensures GoodSpace(limits, StoreBlob(s, bytes, text))
  {
    StoreBlobTotals(s, bytes, text);
    StoreBlobLoads(limits, s, bytes, text);
  }

  lemma {:induction false} GoodWithSpace(limits: Limits, disk: Disk, s: BlobSpace)
    requires Good(limits, disk) && GoodSpace(limits, s)
    requires Total(Sizes(disk.dir.metas)) + Total(RefSizes(s.refs)) <= limits.maxSessionBytes
    ensures Good(limits, disk.(space := s))
  {
  }

  lemma {:induction false} StoreBlobGood(limits: Limits, disk: Disk, bytes: seq<byte>, text: string)
    requires Good(limits, disk) && BlobRefusal(limits, disk, bytes, text) == None
    requires Sha256(bytes) !in disk.space.refs && ParseId(text) == Some(|bytes|) && |text| <= 32
    ensures Good(limits, disk.(space := StoreBlob(disk.space, bytes, text)))
  {
    assert ContentBytes(disk) + |bytes| <= limits.maxSessionBytes;
    StoreBlobGoodSpace(limits, disk.space, bytes, text);
    StoreBlobTotals(disk.space, bytes, text);
    GoodWithSpace(limits, disk, StoreBlob(disk.space, bytes, text));
  }

  predicate Honest(blobs: map<Hash, seq<byte>>, bytes: seq<byte>) {
    Sha256(bytes) in blobs ==> blobs[Sha256(bytes)] == bytes
  }

  /** A blob write on a good disk, told apart by whether the session refers to the blob already. */
  lemma {:induction false} PutBlobCases(limits: Limits, disk: Disk, bytes: seq<byte>, text: string)
    requires Good(limits, disk) && |bytes| <= limits.maxBlobBytes
    ensures var h := Sha256(bytes);
      var fault := BlobFault(limits, disk, |bytes|, |text|);
      && Honest(disk.space.blobs, bytes)
      && (h in disk.space.refs ==>
            && disk.space.(blobs := disk.space.blobs[h := bytes]) == disk.space
            && PutBlobSpec(limits, disk, bytes, text) == BlobResult(disk, Ok(h)))
      && (h !in disk.space.refs && fault == None ==>
            PutBlobSpec(limits, disk, bytes, text) ==
              BlobResult(disk.(space := StoreBlob(disk.space, bytes, text)), Ok(h)))
      && (h !in disk.space.refs && fault.Some? ==>
            PutBlobSpec(limits, disk, bytes, text) == BlobResult(disk, Err(fault.value)))
  {
    var h := Sha256(bytes);
    if h in disk.space.refs {
      assert RefLoads(disk.space, limits, h);
      assert disk.space.blobs[h := bytes] == disk.space.blobs;
    }
  }

  lemma {:induction false} PrintedSize(n: nat)
    requires n <= U64_MAX
    ensures ParseId(Digits(n)) == Some(n) && |Digits(n)| <= 32
  {
    ParseIdPrinted(n);
    WordLength(n);
  }

  /** A blob write keeps the disk good. */
  lemma {:induction false} PutBlobGood(limits: Limits, disk: Disk, bytes: seq<byte>)
    requires Good(limits, disk)
    ensures Good(limits, PutBlobSpec(limits, disk, bytes, Digits(|bytes|)).disk)
  {
    var text := Digits(|bytes|);
    if BlobRefusal(limits, disk, bytes, text) == None && Sha256(bytes) !in disk.space.refs {
      PrintedSize(|bytes|);
      StoreBlobGood(limits, disk, bytes, text);
    }
  }

  /** Blobs that other sessions write leave this session's disk good. */
  lemma {:induction false} ForeignBlobGood(limits: Limits, disk: Disk, bytes: seq<byte>)
    requires Good(limits, disk)
    ensures Good(limits, disk.(space := disk.space.(blobs := disk.space.blobs[Sha256(bytes) := bytes])))
  {
    var t := disk.space.(blobs := disk.space.blobs[Sha256(bytes) := bytes]);
    forall h | h in t.refs ensures RefLoads(t, limits, h) {
      assert RefLoads(disk.space, limits, h);
    }
    GoodWithSpace(limits, disk, t);
  }

  // ---- Locks ---------------------------------------------------------------------------------------

  function Locked(disk: Disk, id: nat): Disk {
    disk.(dir := disk.dir.(locks := disk.dir.locks + {Digits(id)}))
  }

  function Unlocked(disk: Disk, id: nat): Disk {
    disk.(dir := disk.dir.(locks := disk.dir.locks - {Digits(id)}))
  }

  lemma {:induction false} LockThenUnlock(disk: Disk, id: nat)
    requires Digits(id) !in disk.dir.locks
    ensures Unlocked(Locked(disk, id), id) == disk
  {
    assert disk.dir.locks + {Digits(id)} - {Digits(id)} == disk.dir.locks;
  }

  /** The whole of a text write on a good disk. */
  ghost function PutTextOutcome(
    limits: Limits, disk: Disk, next: nat, content: seq<byte>, title: Option<seq<byte>>, mime: seq<byte>)
    : TextResult
  {
    var id := FreeId(disk.dir, next);
    var a := MakeRef(id, content, title, mime);
    PutTextSpec(limits, disk, next, id, a, |Encode(a)|, content)
  }

  lemma {:induction false} OutcomeRefused(
    limits: Limits, disk: Disk, next: nat, content: seq<byte>, title: Option<seq<byte>>, mime: seq<byte>,
    fault: Fault)
    requires
      || PieceFault(limits, |content|, title, mime) == Some(fault)
      || (PieceFault(limits, |content|, title, mime) == None && SessionFault(limits, disk, |content|) == Some(fault))
    ensures PutTextOutcome(limits, disk, next, content, title, mime) == TextResult(disk, next, Err(fault))
  {
    assert TextRefusal(limits, disk, MakeRef(FreeId(disk.dir, next), content, title, mime)) == Some(fault);
  }

  /**
   * Text and metadata written beside what is there, unless the metadata quota is spent or another text
   * is in the way.
   */
  function Published(limits: Limits, disk: Disk, a: ArtifactRef, length: nat, content: seq<byte>, prior: nat)
    : (Disk, Result<ArtifactRef, Fault>)
  {
    var d := disk.dir;
    if prior + length > limits.maxSessionMetadataBytes then
      (disk, Err(Quota("session artifact metadata")))
    else if a.id in d.texts && d.texts[a.id] != content then
      (disk.(dir := d.(metas := d.metas - {a.id}, texts := d.texts - {a.id})), Err(Integrity))
    else (disk.(dir := StoreText(d, a, length, content)), Ok(a))
  }

  /** What becomes of a text that no limit has refused. */
  ghost function Admitted(
    limits: Limits, disk: Disk, next: nat, content: seq<byte>, title: Option<seq<byte>>, mime: seq<byte>): TextResult
  {
    var id := FreeId(disk.dir, next);
    if id >= U64_MAX then TextResult(disk.(dir := WithLock(disk.dir, id)), next, Err(Integrity))
    else
      var a := MakeRef(id, content, title, mime);
      var (d, r) := Published(limits, disk, a, |Encode(a)|, content, Total(Lengths(disk.dir.metas)));
      TextResult(d, id + 1, r)
  }

  lemma {:induction false} AdmittedAs(
    limits: Limits, disk: Disk, next: nat, id: nat, content: seq<byte>, title: Option<seq<byte>>, mime: seq<byte>)
    requires id < U64_MAX
    ensures FreeId(disk.dir, next) == id ==>
      var a := MakeRef(id, content, title, mime);
      var (d, r) := Published(limits, disk, a, |Encode(a)|, content, Total(Lengths(disk.dir.metas)));
      Admitted(limits, disk, next, content, title, mime) == TextResult(d, id + 1, r)
  {
  }

  lemma {:induction false} SpecLast(
    limits: Limits, disk: Disk, next: nat, id: nat, a: ArtifactRef, length: nat, content: seq<byte>)
    requires TextRefusal(limits, disk, a) == None && id >= U64_MAX
    ensures PutTextSpec(limits, disk, next, id, a, length, content) ==
            TextResult(disk.(dir := WithLock(disk.dir, id)), next, Err(Integrity))
  {
  }

  lemma {:induction false} SpecPublished(
    limits: Limits, disk: Disk, next: nat, id: nat, a: ArtifactRef, length: nat, content: seq<byte>)
    requires TextRefusal(limits, disk, a) == None && id < U64_MAX && a.id !in disk.dir.texts
    ensures var (d, r) := Published(limits, disk, a, length, content, Total(Lengths(disk.dir.metas)));
      PutTextSpec(limits, disk, next, id, a, length, content) == TextResult(d, id + 1, r)
  {
  }

  lemma {:induction false} OutcomeAdmitted(
    limits: Limits, disk: Disk, next: nat, content: seq<byte>, title: Option<seq<byte>>, mime: seq<byte>)
    requires PieceFault(limits, |content|, title, mime) == None && SessionFault(limits, disk, |content|) == None
    requires Digits(FreeId(disk.dir, next)) !in disk.dir.texts
    ensures PutTextOutcome(limits, disk, next, content, title, mime) ==
            Admitted(limits, disk, next, content, title, mime)
  {
    var id := FreeId(disk.dir, next);
    var a := MakeRef(id, content, title, mime);
    if id >= U64_MAX {
      SpecLast(limits, disk, next, id, a, |Encode(a)|, content);
    } else {
      SpecPublished(limits, disk, next, id, a, |Encode(a)|, content);
    }
  }

  /** The artifacts after a text write: one more when it succeeds, the same otherwise. */
  ghost predicate TextKeys(disk: Disk, id: nat, r: TextResult) {
    && r.disk.dir.metas.Keys == disk.dir.metas.Keys + (if r.answer.Ok? then {Digits(id)} else {})
    && r.next <= U64_MAX
  }

  lemma {:induction false} SpecKeys(
    limits: Limits, disk: Disk, next: nat, id: nat, a: ArtifactRef, length: nat, content: seq<byte>)
    requires a.id == Digits(id) && next <= U64_MAX
    ensures TextKeys(disk, id, PutTextSpec(limits, disk, next, id, a, length, content))
  {
  }

  lemma {:induction false} SpecGood(
    limits: Limits, disk: Disk, next: nat, id: nat, a: ArtifactRef, length: nat, content: seq<byte>)
    returns (r: TextResult)
    requires Good(limits, disk) && next <= id <= U64_MAX && ParseId(a.id) == Some(id) && a.id !in disk.dir.metas
    requires a.size == |content|
    requires TextRefusal(limits, disk, a) == None ==> ValidRef(a.id, a) && length <= MAX_METADATA_BYTES
    ensures r == PutTextSpec(limits, disk, next, id, a, length, content)
    ensures Good(limits, r.disk) && TextKeys(disk, id, r)
  {
    PutTextKeepsGood(limits, disk, next, id, a, length, content);
    SpecKeys(limits, disk, next, id, a, length, content);
    r := PutTextSpec(limits, disk, next, id, a, length, content);
  }

  lemma {:induction false} AdmittedRefLoads(
    limits: Limits, disk: Disk, id: nat, content: seq<byte>, title: Option<seq<byte>>, mime: seq<byte>)
    requires id <= U64_MAX
    ensures var a := MakeRef(id, content, title, mime);
      TextRefusal(limits, disk, a) == None ==> ValidRef(a.id, a) && |Encode(a)| <= MAX_METADATA_BYTES
  {
    if TextRefusal(limits, disk, MakeRef(id, content, title, mime)) == None {
      WrittenRefLoads(id, content, title, mime);
    }
  }

  /** A text write keeps the disk good and publishes at most one identifier, above all published before. */
  lemma {:induction false} PutTextOutcomeGood(
    limits: Limits, disk: Disk, next: nat, content: seq<byte>, title: Option<seq<byte>>, mime: seq<byte>,
    maxId: Option<nat>) returns (r: TextResult)
    requires Good(limits, disk) && next <= U64_MAX && LargestOf(disk.dir.metas.Keys, maxId)
    ensures r == PutTextOutcome(limits, disk, next, content, title, mime)
    ensures Good(limits, r.disk) && TextKeys(disk, FreeId(disk.dir, next), r)
    ensures AllBelow(disk.dir.metas.Keys, FreeId(disk.dir, next))
  {
    var id := FreeId(disk.dir, next);
    var a := MakeRef(id, content, title, mime);
    FreeIdIsFree(disk.dir, next, maxId);
    ParseIdPrinted(id);
    AdmittedRefLoads(limits, disk, id, content, title, mime);
    r := SpecGood(limits, disk, next, id, a, |Encode(a)|, content);
  }
}
