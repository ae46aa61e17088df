/** Scanning a session's namespace against its quotas. */
module ArtifactQuota {
  import opened Common
  import opened Decimals
  import opened Sums
  import opened ArtifactPaging
  import opened ArtifactMeta

  datatype Limits = Limits(
    maxArtifactBytes: u64, maxBlobBytes: u64, maxSessionBytes: u64, maxArtifactCount: u64,
    maxSessionMetadataBytes: u64, maxBlobCount: u64, maxSessionBlobRefBytes: u64)

  predicate ValidLimits(limits: Limits) {
    && limits.maxArtifactBytes > 0 && limits.maxBlobBytes > 0 && limits.maxSessionBytes > 0
    && limits.maxArtifactCount > 0 && limits.maxSessionMetadataBytes > 0
    && limits.maxBlobCount > 0 && limits.maxSessionBlobRefBytes > 0
    && limits.maxArtifactBytes <= limits.maxSessionBytes
  }

  datatype Fault = Quota(resource: string) | Integrity | InvalidLimits | Missing

  // ---- Directory listings ---------------------------------------------------------------------------

  /** A listing of a directory: its entries in some order, each once. */
  ghost predicate Lists<T(!new)>(listing: seq<T>, entries: set<T>) {
    Distinct(listing) && (set e | e in listing) == entries
  }

  // ---- Artifacts ---------------------------------------------------------------------------------------

  /** A metadata file: its length and the reference it decodes to, if any. */
  datatype MetaFile = MetaFile(length: nat, ref: Option<ArtifactRef>)

  /** The artifact directory, by the stems of `.meta` and `.txt` files; lock files and others beside. */
  datatype Directory = Directory(
    metas: map<string, MetaFile>, texts: map<string, seq<byte>>, locks: set<string>, strays: set<string>)

  datatype Kind = Meta | Text | Lock | Stray

  datatype Entry = Entry(kind: Kind, name: string)

  function Tagged(kind: Kind, names: set<string>): set<Entry> {
    set name | name in names :: Entry(kind, name)
  }

  function Entries(d: Directory): set<Entry> {
    (Tagged(Meta, d.metas.Keys) + Tagged(Text, d.texts.Keys)) + (Tagged(Lock, d.locks) + Tagged(Stray, d.strays))
  }

  function EntryCount(d: Directory): nat {
    |d.metas| + |d.texts| + |d.locks| + |d.strays|
  }

  lemma {:induction false} TaggedCount(kind: Kind, names: set<string>)
    ensures |Tagged(kind, names)| == |names|
    decreases |names|
  {
    if names == {} {
      assert Tagged(kind, names) == {};
    } else {
      var name :| name in names;
      TaggedCount(kind, names - {name});
      assert Tagged(kind, names) == Tagged(kind, names - {name}) + {Entry(kind, name)};
    }
  }

  lemma {:induction false} Apart(files: set<Entry>, others: set<Entry>)
    requires forall e :: e in files ==> e.kind == Meta || e.kind == Text
    requires forall e :: e in others ==> e.kind == Lock || e.kind == Stray
    ensures |files + others| == |files| + |others|
  {
    assert files !! others;
  }

  lemma {:induction false} TwoKinds(a: Kind, names: set<string>, b: Kind, others: set<string>)
    requires a != b
    ensures |Tagged(a, names) + Tagged(b, others)| == |names| + |others|
  {
    TaggedCount(a, names);
    TaggedCount(b, others);
    assert Tagged(a, names) !! Tagged(b, others);
  }

  lemma {:induction false} EntriesCounted(d: Directory)
    ensures |Entries(d)| == EntryCount(d)
  {
    TwoKinds(Meta, d.metas.Keys, Text, d.texts.Keys);
    TwoKinds(Lock, d.locks, Stray, d.strays);
    Apart(Tagged(Meta, d.metas.Keys) + Tagged(Text, d.texts.Keys), Tagged(Lock, d.locks) + Tagged(Stray, d.strays));
  }

  lemma {:induction false} MetaEntry(d: Directory, stem: string)
    ensures Entry(Meta, stem) in Entries(d) <==> stem in d.metas
  {
  }

  function SizeOf(m: MetaFile): nat {
    if m.ref.Some? then m.ref.value.size else 0
  }

  function Lengths(metas: map<string, MetaFile>): map<string, nat> {
    map k | k in metas :: metas[k].length
  }

  function Sizes(metas: map<string, MetaFile>): map<string, nat> {
    map k | k in metas :: SizeOf(metas[k])
  }

  /** A metadata file loads: it is small, decodes, names its own stem, and its text is there in full. */
  predicate Loads(d: Directory, stem: string)
    requires stem in d.metas
  {
    var m := d.metas[stem];
    && m.length <= MAX_METADATA_BYTES
    && m.ref.Some?
    && ValidRef(stem, m.ref.value)
    && stem in d.texts
    && |d.texts[stem]| == m.ref.value.size
  }

  ghost predicate Acceptable(d: Directory, limits: Limits) {
    && EntryCount(d) <= 3 * limits.maxArtifactCount + 64 <= U64_MAX
    && |d.metas| <= limits.maxArtifactCount
    && (forall stem :: stem in d.metas ==> Loads(d, stem))
    && Total(Lengths(d.metas)) <= limits.maxSessionMetadataBytes
    && Total(Sizes(d.metas)) <= limits.maxSessionBytes
  }

  datatype Usage = Usage(count: nat, metadataBytes: nat, contentBytes: nat, maxId: Option<nat>)

  /** The largest identifier among some stems. */
  ghost predicate LargestOf(stems: set<string>, maxId: Option<nat>) {
    && (maxId == None <==> stems == {})
    && (maxId.Some? ==> Digits(maxId.value) in stems)
    && forall stem :: stem in stems ==>
         ParseId(stem).Some? && maxId.Some? && ParseId(stem).value <= maxId.value
  }

  ghost predicate Counts(d: Directory, stems: set<string>, u: Usage) {
    && u.count == |stems|
    && u.metadataBytes == Total(Restrict(Lengths(d.metas), stems))
    && u.contentBytes == Total(Restrict(Sizes(d.metas), stems))
    && LargestOf(stems, u.maxId)
  }

  predicate Within(u: Usage, limits: Limits) {
    && u.count <= limits.maxArtifactCount
    && u.metadataBytes <= limits.maxSessionMetadataBytes
    && u.contentBytes <= limits.maxSessionBytes
  }

  /** The metadata files of some stems have been taken in, and all is well so far. */
  ghost predicate Scanned(d: Directory, limits: Limits, stems: set<string>, u: Usage) {
    && stems <= d.metas.Keys
    && Counts(d, stems, u)
    && (forall stem :: stem in stems ==> Loads(d, stem))
    && Within(u, limits)
  }

  lemma {:induction false} ScannedNothing(d: Directory, limits: Limits)
    ensures Scanned(d, limits, {}, Usage(0, 0, 0, None))
  {
    RestrictNone(Lengths(d.metas));
    RestrictNone(Sizes(d.metas));
  }

  /** The usage of a whole directory. */
  ghost predicate UsageOf(d: Directory, u: Usage) {
    && u.count == |d.metas|
    && u.metadataBytes == Total(Lengths(d.metas))
    && u.contentBytes == Total(Sizes(d.metas))
    && LargestOf(d.metas.Keys, u.maxId)
  }

  lemma {:induction false} ScannedAll(d: Directory, limits: Limits, u: Usage)
    requires Scanned(d, limits, d.metas.Keys, u)
    ensures UsageOf(d, u)
    ensures EntryCount(d) <= 3 * limits.maxArtifactCount + 64 <= U64_MAX ==> Acceptable(d, limits)
  {
    assert Lengths(d.metas).Keys == Sizes(d.metas).Keys == d.metas.Keys;
    RestrictAll(Lengths(d.metas));
    RestrictAll(Sizes(d.metas));
  }

  lemma {:induction false} ValidRefId(stem: string, a: ArtifactRef)
    requires ValidRef(stem, a)
    ensures ParseId(stem).Some? && stem == Digits(ParseId(stem).value)
  {
    ParseIdPrinted(ParseUri(a.uri).value);
  }

  /** A metadata file not yet taken in counts towards the directory's totals. */
  lemma {:induction false} StillToCome(d: Directory, limits: Limits, stems: set<string>, u: Usage, stem: string)
    requires stem in d.metas && stem !in stems && Scanned(d, limits, stems, u)
    ensures u.count < |d.metas|
    ensures u.metadataBytes + d.metas[stem].length <= Total(Lengths(d.metas))
    ensures u.contentBytes + SizeOf(d.metas[stem]) <= Total(Sizes(d.metas))
  {
    TotalGrows(Lengths(d.metas), stems, stem);
    TotalGrows(Sizes(d.metas), stems, stem);
    SubsetCount(stems + {stem}, d.metas.Keys);
  }

  function Plus(u: Usage, m: MetaFile, id: nat): Usage {
    Usage(u.count + 1, u.metadataBytes + m.length, u.contentBytes + SizeOf(m),
          Some(if u.maxId.Some? then Max(u.maxId.value, id) else id))
  }

  lemma {:induction false} CountsMore(d: Directory, stems: set<string>, u: Usage, stem: string, id: nat)
    requires stem in d.metas && stem !in stems && Counts(d, stems, u) && ParseId(stem) == Some(id)
    ensures Counts(d, stems + {stem}, Plus(u, d.metas[stem], id))
  {
    TotalGrows(Lengths(d.metas), stems, stem);
    TotalGrows(Sizes(d.metas), stems, stem);
  }

  /** Takes one metadata file into the usage, or finds what keeps the directory from being acceptable. */
  method LoadOne(d: Directory, limits: Limits, ghost stems: set<string>, u: Usage, stem: string)
    returns (r: Result<Usage, Fault>)
    requires stem in d.metas && stem !in stems && Scanned(d, limits, stems, u)
    ensures r.Ok? ==> Scanned(d, limits, stems + {stem}, r.value)
    ensures r.Err? ==> !Acceptable(d, limits)
  {
    var m := d.metas[stem];
    StillToCome(d, limits, stems, u, stem);
    if u.count >= limits.maxArtifactCount {
      return Err(Quota("artifact count"));
    }
    if u.metadataBytes + m.length > limits.maxSessionMetadataBytes {
      return Err(Quota("session artifact metadata"));
    }
    if m.length > MAX_METADATA_BYTES || m.ref == None || !ValidRef(stem, m.ref.value) {
      return Err(Integrity);
    }
    var artifact := m.ref.value;
    if artifact.id !in d.texts || |d.texts[artifact.id]| != artifact.size {
      return Err(Integrity);
    }
    if u.contentBytes + artifact.size > limits.maxSessionBytes {
      return Err(Quota("session"));
    }
    ValidRefId(stem, artifact);
    var id := ParseId(artifact.id).value;
    CountsMore(d, stems, u, stem, id);
    r := Ok(Plus(u, m, id));
  }

  ghost function StemsSeen(listing: seq<Entry>): set<string> {
    if listing == [] then {}
    else
      var last, earlier := listing[|listing| - 1], StemsSeen(listing[..|listing| - 1]);
      if last.kind == Meta then earlier + {last.name} else earlier
  }

  lemma {:induction false} SeenMeans(listing: seq<Entry>, stem: string)
    ensures stem in StemsSeen(listing) <==> Entry(Meta, stem) in listing
  {
    if listing != [] {
      SeenMeans(listing[..|listing| - 1], stem);
      assert listing == listing[..|listing| - 1] + [listing[|listing| - 1]];
    }
  }

  lemma {:induction false} SeenMore(listing: seq<Entry>, i: nat)
    requires i < |listing| && Distinct(listing)
    ensures StemsSeen(listing[..i + 1]) ==
            if listing[i].kind == Meta then StemsSeen(listing[..i]) + {listing[i].name} else StemsSeen(listing[..i])
    ensures listing[i].kind == Meta ==>
              listing[i].name !in StemsSeen(listing[..i]) && listing[i].name in StemsSeen(listing)
  {
    assert listing[..i + 1][..i] == listing[..i];
    DistinctAt(listing, i);
    SeenMeans(listing[..i], listing[i].name);
    SeenMeans(listing, listing[i].name);
  }

  lemma {:induction false} SeenAll(d: Directory, listing: seq<Entry>)
    requires Lists(listing, Entries(d))
    ensures StemsSeen(listing) == d.metas.Keys && |listing| == EntryCount(d)
  {
    DistinctCount(listing);
    EntriesCounted(d);
    forall k ensures k in StemsSeen(listing) <==> k in d.metas {
      MetaEntry(d, k);
      SeenMeans(listing, k);
      assert Entry(Meta, k) in listing <==> Entry(Meta, k) in Entries(d);
    }
  }

  method TakeEntry(d: Directory, limits: Limits, listing: seq<Entry>, i: nat, u: Usage)
    returns (r: Result<Usage, Fault>)
    requires Distinct(listing) && StemsSeen(listing) <= d.metas.Keys && i < |listing|
    requires Scanned(d, limits, StemsSeen(listing[..i]), u)
    ensures r.Ok? ==> Scanned(d, limits, StemsSeen(listing[..i + 1]), r.value)
    ensures r.Err? ==> !Acceptable(d, limits)
  {
    SeenMore(listing, i);
    if listing[i].kind == Meta {
      r := LoadOne(d, limits, StemsSeen(listing[..i]), u, listing[i].name);
    } else {
      r := Ok(u);
    }
  }

  method TakeEntries(d: Directory, limits: Limits, listing: seq<Entry>) returns (r: Result<Usage, Fault>)
    requires Distinct(listing) && StemsSeen(listing) <= d.metas.Keys
    ensures r.Ok? ==> Scanned(d, limits, StemsSeen(listing), r.value)
    ensures r.Ok? ==> |listing| <= 3 * limits.maxArtifactCount + 64
    ensures r.Err? ==> |listing| > 3 * limits.maxArtifactCount + 64 || !Acceptable(d, limits)
  {
    ScannedNothing(d, limits);
    var u := Usage(0, 0, 0, None);
    for i := 0 to |listing|
      invariant i <= 3 * limits.maxArtifactCount + 64
      invariant Scanned(d, limits, StemsSeen(listing[..i]), u)
    {
      if i + 1 > 3 * limits.maxArtifactCount + 64 {
        return Err(Quota("artifact namespace entries"));
      }
      r := TakeEntry(d, limits, listing, i, u);
      if r.Err? {
        return;
      }
      u := r.value;
    }
    assert listing[..|listing|] == listing;
    r := Ok(u);
  }

  /** Scans a directory listing: succeeds exactly on acceptable directories, in whatever order they list. */
  method NamespaceUsage(d: Directory, limits: Limits, listing: seq<Entry>) returns (r: Result<Usage, Fault>)
    requires Lists(listing, Entries(d))
    ensures r.Ok? <==> Acceptable(d, limits)
    ensures r.Ok? ==> UsageOf(d, r.value)
  {
    if 3 * limits.maxArtifactCount + 64 > U64_MAX {
      return Err(InvalidLimits);
    }
    SeenAll(d, listing);
    r := TakeEntries(d, limits, listing);
    if r.Ok? {
      ScannedAll(d, limits, r.value);
    }
  }

  // ---- Blob references --------------------------------------------------------------------------------

  /** Content hashes, as symbolic digests. */
  datatype Hash = Sha256(bytes: seq<byte>)

  /** A session's blob references by hash, the other files beside them, and the shared blobs. */
  datatype BlobSpace = BlobSpace(refs: map<Hash, string>, strays: set<string>, blobs: map<Hash, seq<byte>>)

  datatype RefEntry = Ref(hash: Hash) | Beside(name: string)

  function RefEntries(s: BlobSpace): set<RefEntry> {
    (set h | h in s.refs.Keys :: Ref(h)) + (set k | k in s.strays :: Beside(k))
  }

  function RefEntryCount(s: BlobSpace): nat {
    |s.refs| + |s.strays|
  }

  lemma {:induction false} RefsCounted(hashes: set<Hash>)
    ensures |set h | h in hashes :: Ref(h)| == |hashes|
    decreases |hashes|
  {
    if hashes != {} {
      var one :| one in hashes;
      RefsCounted(hashes - {one});
      assert (set h | h in hashes :: Ref(h)) == (set h | h in hashes - {one} :: Ref(h)) + {Ref(one)};
    }
  }

  lemma {:induction false} StraysCounted(names: set<string>)
    ensures |set k | k in names :: Beside(k)| == |names|
    decreases |names|
  {
    if names != {} {
      var one :| one in names;
      StraysCounted(names - {one});
      assert (set k | k in names :: Beside(k)) == (set k | k in names - {one} :: Beside(k)) + {Beside(one)};
    }
  }

  lemma {:induction false} RefEntriesCounted(s: BlobSpace)
    ensures |RefEntries(s)| == RefEntryCount(s)
  {
    RefsCounted(s.refs.Keys);
    StraysCounted(s.strays);
    assert (set h | h in s.refs.Keys :: Ref(h)) !! (set k | k in s.strays :: Beside(k));
  }

  lemma {:induction false} RefEntryOf(s: BlobSpace, h: Hash)
    ensures Ref(h) in RefEntries(s) <==> h in s.refs
  {
  }

  function RefLengths(refs: map<Hash, string>): map<Hash, nat> {
    map h | h in refs :: |refs[h]|
  }

  function RefSizes(refs: map<Hash, string>): map<Hash, nat> {
    map h | h in refs :: if ParseId(refs[h]).Some? then ParseId(refs[h]).value else 0
  }

  /** A reference file holds a canonical size within the limit, and its blob is there at that size. */
  predicate RefLoads(s: BlobSpace, limits: Limits, h: Hash)
    requires h in s.refs
  {
    && |s.refs[h]| <= 32
    && ParseId(s.refs[h]).Some?
    && ParseId(s.refs[h]).value <= limits.maxBlobBytes
    && h in s.blobs
    && |s.blobs[h]| == ParseId(s.refs[h]).value
  }

  function ValidateBlobReference(s: BlobSpace, limits: Limits, h: Hash): (r: Result<nat, Fault>)
    requires h in s.refs
    ensures r.Ok? <==> RefLoads(s, limits, h)
    ensures r.Ok? ==> r.value == RefSizes(s.refs)[h] == |s.blobs[h]|
  {
    if |s.refs[h]| > 32 then Err(Integrity)
    else
      match ParseId(s.refs[h])
      case None => Err(Integrity)
      case Some(size) =>
        if size > limits.maxBlobBytes then Err(Integrity)
        else if h !in s.blobs then Err(Missing)
        else if |s.blobs[h]| != size then Err(Integrity)
        else Ok(size)
  }

  ghost predicate BlobsAcceptable(s: BlobSpace, limits: Limits) {
    && RefEntryCount(s) <= 2 * limits.maxBlobCount + 32 <= U64_MAX
    && |s.refs| <= limits.maxBlobCount
    && (forall h :: h in s.refs ==> RefLoads(s, limits, h))
    && Total(RefLengths(s.refs)) <= limits.maxSessionBlobRefBytes
    && Total(RefSizes(s.refs)) <= limits.maxSessionBytes
  }

  datatype BlobUsage = BlobUsage(count: nat, metadataBytes: nat, contentBytes: nat)

  ghost predicate BlobCounts(s: BlobSpace, hashes: set<Hash>, u: BlobUsage) {
    && u.count == |hashes|
    && u.metadataBytes == Total(Restrict(RefLengths(s.refs), hashes))
    && u.contentBytes == Total(Restrict(RefSizes(s.refs), hashes))
  }

  predicate BlobsWithin(u: BlobUsage, limits: Limits) {
    && u.count <= limits.maxBlobCount
    && u.metadataBytes <= limits.maxSessionBlobRefBytes
    && u.contentBytes <= limits.maxSessionBytes
  }

  ghost predicate BlobsScanned(s: BlobSpace, limits: Limits, hashes: set<Hash>, u: BlobUsage) {
    && hashes <= s.refs.Keys
    && BlobCounts(s, hashes, u)
    && (forall h :: h in hashes ==> RefLoads(s, limits, h))
    && BlobsWithin(u, limits)
  }

  lemma {:induction false} BlobsScannedNothing(s: BlobSpace, limits: Limits)
    ensures BlobsScanned(s, limits, {}, BlobUsage(0, 0, 0))
  {
    RestrictNone(RefLengths(s.refs));
    RestrictNone(RefSizes(s.refs));
  }

  ghost predicate BlobUsageOf(s: BlobSpace, u: BlobUsage) {
    && u.count == |s.refs|
    && u.metadataBytes == Total(RefLengths(s.refs))
    && u.contentBytes == Total(RefSizes(s.refs))
  }

  lemma {:induction false} BlobsScannedAll(s: BlobSpace, limits: Limits, u: BlobUsage)
    requires BlobsScanned(s, limits, s.refs.Keys, u)
    ensures BlobUsageOf(s, u)
    ensures RefEntryCount(s) <= 2 * limits.maxBlobCount + 32 <= U64_MAX ==> BlobsAcceptable(s, limits)
  {
    assert RefLengths(s.refs).Keys == RefSizes(s.refs).Keys == s.refs.Keys;
    RestrictAll(RefLengths(s.refs));
    RestrictAll(RefSizes(s.refs));
  }

  lemma {:induction false} RefStillToCome(s: BlobSpace, limits: Limits, hashes: set<Hash>, u: BlobUsage, h: Hash)
    requires h in s.refs && h !in hashes && BlobsScanned(s, limits, hashes, u)
    ensures u.count < |s.refs|
    ensures u.metadataBytes + RefLengths(s.refs)[h] <= Total(RefLengths(s.refs))
    ensures u.contentBytes + RefSizes(s.refs)[h] <= Total(RefSizes(s.refs))
  {
    TotalGrows(RefLengths(s.refs), hashes, h);
    TotalGrows(RefSizes(s.refs), hashes, h);
    SubsetCount(hashes + {h}, s.refs.Keys);
  }

  lemma {:induction false} BlobCountsMore(s: BlobSpace, hashes: set<Hash>, u: BlobUsage, h: Hash)
    requires h in s.refs && h !in hashes && BlobCounts(s, hashes, u)
    ensures BlobCounts(s, hashes + {h}, BlobUsage(
              u.count + 1, u.metadataBytes + RefLengths(s.refs)[h], u.contentBytes + RefSizes(s.refs)[h]))
  {
    TotalGrows(RefLengths(s.refs), hashes, h);
    TotalGrows(RefSizes(s.refs), hashes, h);
  }

  method LoadOneRef(s: BlobSpace, limits: Limits, ghost hashes: set<Hash>, u: BlobUsage, h: Hash)
    returns (r: Result<BlobUsage, Fault>)
    requires h in s.refs && h !in hashes && BlobsScanned(s, limits, hashes, u)
    ensures r.Ok? ==> BlobsScanned(s, limits, hashes + {h}, r.value)
    ensures r.Err? ==> !BlobsAcceptable(s, limits)
  {
    RefStillToCome(s, limits, hashes, u, h);
    if u.count >= limits.maxBlobCount {
      return Err(Quota("blob reference count"));
    }
    var length := |s.refs[h]|;
    if u.metadataBytes + length > limits.maxSessionBlobRefBytes {
      return Err(Quota("session blob-reference metadata"));
    }
    var size := ValidateBlobReference(s, limits, h);
    if size.Err? {
      return Err(size.error);
    }
    if u.contentBytes + size.value > limits.maxSessionBytes {
      return Err(Quota("session"));
    }
    BlobCountsMore(s, hashes, u, h);
    r := Ok(BlobUsage(u.count + 1, u.metadataBytes + length, u.contentBytes + size.value));
  }

  ghost function HashesSeen(listing: seq<RefEntry>): set<Hash> {
    if listing == [] then {}
    else
      var last, earlier := listing[|listing| - 1], HashesSeen(listing[..|listing| - 1]);
      if last.Ref? then earlier + {last.hash} else earlier
  }

  lemma {:induction false} HashesSeenMeans(listing: seq<RefEntry>, h: Hash)
    ensures h in HashesSeen(listing) <==> Ref(h) in listing
  {
    if listing != [] {
      HashesSeenMeans(listing[..|listing| - 1], h);
      assert listing == listing[..|listing| - 1] + [listing[|listing| - 1]];
    }
  }

  lemma {:induction false} HashesSeenMore(listing: seq<RefEntry>, i: nat)
    requires i < |listing| && Distinct(listing)
    ensures HashesSeen(listing[..i + 1]) ==
            if listing[i].Ref? then HashesSeen(listing[..i]) + {listing[i].hash} else HashesSeen(listing[..i])
    ensures listing[i].Ref? ==>
              listing[i].hash !in HashesSeen(listing[..i]) && listing[i].hash in HashesSeen(listing)
  {
    assert listing[..i + 1][..i] == listing[..i];
    DistinctAt(listing, i);
    if listing[i].Ref? {
      HashesSeenMeans(listing[..i], listing[i].hash);
      HashesSeenMeans(listing, listing[i].hash);
    }
  }

  lemma {:induction false} HashesSeenAll(s: BlobSpace, listing: seq<RefEntry>)
    requires Lists(listing, RefEntries(s))
    ensures HashesSeen(listing) == s.refs.Keys && |listing| == RefEntryCount(s)
  {
    DistinctCount(listing);
    RefEntriesCounted(s);
    forall h ensures h in HashesSeen(listing) <==> h in s.refs {
      RefEntryOf(s, h);
      HashesSeenMeans(listing, h);
      assert Ref(h) in listing <==> Ref(h) in RefEntries(s);
    }
  }

  method TakeRefs(s: BlobSpace, limits: Limits, listing: seq<RefEntry>) returns (r: Result<BlobUsage, Fault>)
    requires Distinct(listing) && HashesSeen(listing) <= s.refs.Keys
    ensures r.Ok? ==> BlobsScanned(s, limits, HashesSeen(listing), r.value)
    ensures r.Ok? ==> |listing| <= 2 * limits.maxBlobCount + 32
    ensures r.Err? ==> |listing| > 2 * limits.maxBlobCount + 32 || !BlobsAcceptable(s, limits)
  {
    BlobsScannedNothing(s, limits);
    var u := BlobUsage(0, 0, 0);
    ghost var seen: set<Hash> := {};
    for i := 0 to |listing|
      invariant i <= 2 * limits.maxBlobCount + 32
      invariant seen == HashesSeen(listing[..i])
      invariant BlobsScanned(s, limits, seen, u)
    {
      if i + 1 > 2 * limits.maxBlobCount + 32 {
        return Err(Quota("blob-reference namespace entries"));
      }
      HashesSeenMore(listing, i);
      if listing[i].Ref? {
        r := LoadOneRef(s, limits, seen, u, listing[i].hash);
        if r.Err? {
          return;
        }
        u := r.value;
        seen := seen + {listing[i].hash};
      }
    }
    assert listing[..|listing|] == listing;
    r := Ok(u);
  }

  /** Scans the blob references: succeeds exactly on acceptable ones, in whatever order they list. */
  method BlobReferenceUsage(s: BlobSpace, limits: Limits, listing: seq<RefEntry>)
    returns (r: Result<BlobUsage, Fault>)
    requires Lists(listing, RefEntries(s))
    ensures r.Ok? <==> BlobsAcceptable(s, limits)
    ensures r.Ok? ==> BlobUsageOf(s, r.value)
  {
    if 2 * limits.maxBlobCount + 32 > U64_MAX {
      return Err(InvalidLimits);
    }
    HashesSeenAll(s, listing);
    r := TakeRefs(s, limits, listing);
    if r.Ok? {
      BlobsScannedAll(s, limits, r.value);
    }
  }
}
