/** The store's handles: any number of them share one session on disk. */
module ArtifactHandles {
  import opened Common
  import opened Decimals
  import opened Sums
  import opened ArtifactPaging
  import opened ArtifactMeta
  import opened ArtifactQuota
  import opened ArtifactStore

  /** A directory's entries in whatever order the file system gives them. */
  method ListEntries<T(==, !new)>(entries: set<T>) returns (listing: seq<T>)
    ensures Lists(listing, entries)
  {
    listing := [];
    var rest := entries;
    while rest != {}
      invariant Distinct(listing)
      invariant (set e | e in listing) + rest == entries
      invariant forall e :: e in listing ==> e !in rest
      decreases rest
    {
      var e :| e in rest;
      assert (listing + [e])[..|listing|] == listing;
      assert (set x | x in listing + [e]) == (set x | x in listing) + {e};
      listing, rest := listing + [e], rest - {e};
    }
  }

  /** One past the largest identifier, when there is such a machine word. */
  function NextAfter(maxId: Option<nat>): (r: Result<nat, Fault>)
    ensures r.Ok? <==> maxId == None || maxId.value < U64_MAX
    ensures r.Ok? ==> r.value == (if maxId.Some? then maxId.value + 1 else 0)
  {
    match maxId
    case None => Ok(0)
    case Some(id) => if id + 1 > U64_MAX then Err(Integrity) else Ok(id + 1)
  }

  class Session {
    var disk: Disk

    constructor ()
      ensures disk == EMPTY
    {
      disk := EMPTY;
    }

    method ScanArtifacts(limits: Limits) returns (r: Result<Usage, Fault>)
      ensures r.Ok? <==> Acceptable(disk.dir, limits)
      ensures r.Ok? ==> UsageOf(disk.dir, r.value)
    {
      var listing := ListEntries(Entries(disk.dir));
      r := NamespaceUsage(disk.dir, limits, listing);
    }

    method ScanBlobs(limits: Limits) returns (r: Result<BlobUsage, Fault>)
      ensures r.Ok? <==> BlobsAcceptable(disk.space, limits)
      ensures r.Ok? ==> BlobUsageOf(disk.space, r.value)
    {
      var listing := ListEntries(RefEntries(disk.space));
      r := BlobReferenceUsage(disk.space, limits, listing);
    }
  }

  class Handle {
    const session: Session
    const limits: Limits
    var nextId: nat
    var totalBytes: nat

    constructor (session: Session, limits: Limits, nextId: nat, totalBytes: nat)
      ensures this.session == session && this.limits == limits
      ensures this.nextId == nextId && this.totalBytes == totalBytes
    {
      this.session, this.limits := session, limits;
      this.nextId, this.totalBytes := nextId, totalBytes;
    }

    /**
     * Takes a lock on the first identifier from `first` on that is neither locked nor published.
     * On a directory without locks below the last identifier, that is `first` itself.
     */
    method TakeId(first: nat) returns (r: Result<nat, Fault>)
      requires first <= U64_MAX
      modifies this`nextId, session
      ensures r.Ok? ==>
        && first <= r.value < U64_MAX && nextId == r.value + 1
        && Digits(r.value) !in old(session.disk.dir.locks) && Digits(r.value) !in old(session.disk.dir.metas)
        && session.disk == Locked(old(session.disk), r.value)
      ensures r.Err? ==> nextId == old(nextId)
      ensures var d := old(session.disk.dir);
        Digits(first) !in d.metas && OnlyLast(d.locks) ==>
          && (first < U64_MAX ==> r == Ok(first))
          && (first == U64_MAX ==> r == Err(Integrity) && session.disk.dir == WithLock(d, first)
                                   && session.disk.space == old(session.disk.space))
    {
      ParseIdPrinted(first);
      var id := first;
      while true
        invariant first <= id <= U64_MAX
        invariant session.disk == old(session.disk) && nextId == old(nextId)
        invariant id > first ==>
          Digits(first) in old(session.disk.dir.locks) || Digits(first) in old(session.disk.dir.metas)
        decreases U64_MAX - id
      {
        var free := Digits(id) !in session.disk.dir.locks;
        if free && Digits(id) !in session.disk.dir.metas {
          session.disk := Locked(session.disk, id);
          if id + 1 > U64_MAX {
            return Err(Integrity);
          }
          nextId := id + 1;
          return Ok(id);
        }
        if free {
          session.disk := Locked(session.disk, id);
          LockThenUnlock(old(session.disk), id);
          session.disk := Unlocked(session.disk, id);
        }
        if id + 1 > U64_MAX {
          assert Digits(id) in session.disk.dir.locks ==> WithLock(session.disk.dir, id) == session.disk.dir;
          return Err(Integrity);
        }
        id := id + 1;
      }
    }

    /** Takes the identifier after the largest published one, or the handle's own counter if that is higher. */
    method TakeFreshId(maxId: Option<nat>) returns (r: Result<nat, Fault>)
      requires nextId <= U64_MAX && LargestOf(session.disk.dir.metas.Keys, maxId)
      modifies this`nextId, session
      ensures r.Ok? ==>
        && r.value < U64_MAX && nextId == r.value + 1
        && Digits(r.value) !in old(session.disk.dir.locks)
        && session.disk == Locked(old(session.disk), r.value)
      ensures r.Err? ==> nextId == old(nextId)
      ensures TidyDirectory(old(session.disk.dir)) ==>
        var id := FreeId(old(session.disk.dir), old(nextId));
        && Digits(id) !in old(session.disk.dir.metas)
        && (id < U64_MAX ==> r == Ok(id))
        && (id >= U64_MAX ==> r == Err(Integrity) &&
                              session.disk == old(session.disk).(dir := WithLock(old(session.disk.dir), id)))
    {
      ghost var d := session.disk.dir;
      LargestBelow(d.metas.Keys, maxId, U64_MAX);
      if TidyDirectory(d) {
        FreeIdIsFree(d, nextId, maxId);
      }
      var next := NextAfter(maxId);
      if next.Err? {
        return Err(next.error);
      }
      r := TakeId(Max(nextId, next.value));
    }

    /**
     * Writes text and metadata under a lock already held, and releases it. The limit on one metadata
     * file is no obstacle: every reference a writer makes encodes within it.
     */
    method Publish(id: nat, content: seq<byte>, title: Option<seq<byte>>, mime: seq<byte>, priorMetadata: nat)
      returns (r: Result<ArtifactRef, Fault>)
      requires id <= U64_MAX && PieceFault(limits, |content|, title, mime) == None
      modifies session, this`totalBytes
      ensures var a := MakeRef(id, content, title, mime);
        (session.disk, r) ==
          Published(limits, Unlocked(old(session.disk), id), a, |Encode(a)|, content, priorMetadata)
      ensures r.Ok? ==> HoldsText(session.disk.dir, r.value, content, title, mime)
    {
      var a := MakeRef(id, content, title, mime);
      var metadata := Encode(a);
      assert |metadata| <= MAX_METADATA_BYTES by {
        WrittenRefLoads(id, content, title, mime);
      }
      session.disk := Unlocked(session.disk, id);
      var dir := session.disk.dir;
      if priorMetadata + |metadata| > limits.maxSessionMetadataBytes {
        r := Err(Quota("session artifact metadata"));
      } else if a.id in dir.texts && dir.texts[a.id] != content {
        session.disk := session.disk.(dir := dir.(metas := dir.metas - {a.id}, texts := dir.texts - {a.id}));
        r := Err(Integrity);
      } else {
        session.disk := session.disk.(dir := StoreText(dir, a, |metadata|, content));
        totalBytes := Min(totalBytes + |content|, U64_MAX);
        r := Ok(a);
      }
    }

    /** Scans the artifacts and decides whether one more is admitted. */
    method AdmitOne() returns (r: Result<Usage, Fault>)
      ensures r.Ok? ==> Acceptable(session.disk.dir, limits) && UsageOf(session.disk.dir, r.value)
      ensures r.Ok? ==> |session.disk.dir.metas| < limits.maxArtifactCount
      ensures r.Err? && Acceptable(session.disk.dir, limits) ==>
        |session.disk.dir.metas| >= limits.maxArtifactCount && r == Err(Quota("artifact count"))
    {
      r := session.ScanArtifacts(limits);
      if r.Ok? && r.value.count >= limits.maxArtifactCount {
        r := Err(Quota("artifact count"));
      }
    }

    /** Scans the session and decides whether so many more bytes, as one more artifact, are admitted. */
    method Admit(size: nat) returns (r: Result<Usage, Fault>)
      ensures r.Ok? ==> Acceptable(session.disk.dir, limits) && UsageOf(session.disk.dir, r.value)
      ensures r.Ok? ==> SessionFault(limits, session.disk, size) == None
      ensures r.Err? && Acceptable(session.disk.dir, limits) && BlobsAcceptable(session.disk.space, limits) ==>
        SessionFault(limits, session.disk, size) == Some(r.error)
    {
      r := AdmitOne();
      if r.Err? {
        return;
      }
      var blobs := session.ScanBlobs(limits);
      if blobs.Err? {
        r := Err(blobs.error);
      } else if r.value.contentBytes + blobs.value.contentBytes + size > limits.maxSessionBytes {
        r := Err(Quota("session"));
      }
    }

    /** Stores an admitted text under a fresh identifier. */
    method StoreAdmitted(
      content: seq<byte>, title: Option<seq<byte>>, mime: seq<byte>, maxId: Option<nat>, priorMetadata: nat)
      returns (r: Result<ArtifactRef, Fault>)
      requires nextId <= U64_MAX
      requires PieceFault(limits, |content|, title, mime) == None
      requires LargestOf(session.disk.dir.metas.Keys, maxId) && priorMetadata == Total(Lengths(session.disk.dir.metas))
      modifies this, session
      ensures nextId <= U64_MAX
      ensures r.Ok? ==> HoldsText(session.disk.dir, r.value, content, title, mime)
      ensures TidyDirectory(old(session.disk.dir)) ==>
        TextResult(session.disk, nextId, r) ==
          Admitted(limits, old(session.disk), old(nextId), content, title, mime)
    {
      ghost var disk, next := session.disk, nextId;
      var id := TakeFreshId(maxId);
      if id.Ok? {
        LockThenUnlock(disk, id.value);
        AdmittedAs(limits, disk, next, id.value, content, title, mime);
        r := Publish(id.value, content, title, mime, priorMetadata);
      } else {
        r := Err(id.error);
      }
    }

    /** Stores a text under a fresh identifier. */
    method PutText(content: seq<byte>, title: Option<seq<byte>>, mime: seq<byte>)
      returns (r: Result<ArtifactRef, Fault>)
      requires nextId <= U64_MAX
      modifies this, session
      ensures nextId <= U64_MAX
      ensures r.Ok? ==> HoldsText(session.disk.dir, r.value, content, title, mime)
      ensures !Acceptable(old(session.disk.dir), limits) ==> r.Err? && session.disk == old(session.disk)
      ensures Good(limits, old(session.disk)) ==>
        TextResult(session.disk, nextId, r) ==
          PutTextOutcome(limits, old(session.disk), old(nextId), content, title, mime)
    {
      var fault := PieceFault(limits, |content|, title, mime);
      if fault.Some? {
        OutcomeRefused(limits, session.disk, nextId, content, title, mime, fault.value);
        return Err(fault.value);
      }
      var usage := Admit(|content|);
      if usage.Err? {
        if Good(limits, session.disk) {
          OutcomeRefused(limits, session.disk, nextId, content, title, mime, usage.error);
        }
        return Err(usage.error);
      }
      ghost var disk, next := session.disk, nextId;
      if Good(limits, disk) {
        LargestBelow(disk.dir.metas.Keys, usage.value.maxId, U64_MAX);
        FreeIdIsFree(disk.dir, next, usage.value.maxId);
        OutcomeAdmitted(limits, disk, next, content, title, mime);
      }
      r := StoreAdmitted(content, title, mime, usage.value.maxId, usage.value.metadataBytes);
    }

    /** Scans the session and decides whether one more blob reference is admitted. */
    method AdmitBlob(size: nat, length: nat) returns (r: Result<(), Fault>)
      ensures r.Ok? ==> BlobFault(limits, session.disk, size, length) == None
      ensures r.Err? && Acceptable(session.disk.dir, limits) && BlobsAcceptable(session.disk.space, limits) ==>
        BlobFault(limits, session.disk, size, length) == Some(r.error)
    {
      var artifacts := session.ScanArtifacts(limits);
      if artifacts.Err? {
        return Err(artifacts.error);
      }
      var blobs := session.ScanBlobs(limits);
      if blobs.Err? {
        return Err(blobs.error);
      }
      r := AdmitRef(artifacts.value.contentBytes, blobs.value, size, length);
    }

    method AdmitRef(contentBytes: nat, blobs: BlobUsage, size: nat, length: nat) returns (r: Result<(), Fault>)
      requires contentBytes == Total(Sizes(session.disk.dir.metas)) && BlobUsageOf(session.disk.space, blobs)
      ensures r == match BlobFault(limits, session.disk, size, length)
                   case None => Ok(())
                   case Some(fault) => Err(fault)
    {
      if blobs.count >= limits.maxBlobCount {
        r := Err(Quota("blob reference count"));
      } else if blobs.metadataBytes + length > limits.maxSessionBlobRefBytes {
        r := Err(Quota("session blob-reference metadata"));
      } else if contentBytes + blobs.contentBytes + size > limits.maxSessionBytes {
        r := Err(Quota("session"));
      } else {
        r := Ok(());
      }
    }

    /** Writes a blob that is not there, or checks that the one there is the same. */
    method WriteBlob(bytes: seq<byte>) returns (r: Result<(), Fault>)
      modifies session
      ensures r.Ok? ==> session.disk == old(session.disk).(space := old(session.disk.space).(
                          blobs := old(session.disk.space.blobs)[Sha256(bytes) := bytes]))
      ensures r.Err? ==> session.disk == old(session.disk)
      ensures |bytes| <= limits.maxBlobBytes && Honest(old(session.disk.space.blobs), bytes) ==> r.Ok?
    {
      var h, space := Sha256(bytes), session.disk.space;
      if h !in space.blobs {
        session.disk := session.disk.(space := space.(blobs := space.blobs[h := bytes]));
      } else if |space.blobs[h]| > limits.maxBlobBytes {
        return Err(Quota("blob"));
      } else if Sha256(space.blobs[h]) != h {
        return Err(Integrity);
      }
      assert h in space.blobs && space.blobs[h] == bytes ==> space.blobs[h := bytes] == space.blobs;
      r := Ok(());
    }

    /** Whether a blob needs a new reference, and if so whether it is admitted. */
    method AdmitReference(bytes: seq<byte>) returns (r: Result<bool, Fault>)
      ensures var h := Sha256(bytes);
        Good(limits, session.disk) ==>
          if h in session.disk.space.refs then r == Ok(false)
          else match BlobFault(limits, session.disk, |bytes|, |Digits(|bytes|)|)
            case None => r == Ok(true)
            case Some(fault) => r == Err(fault)
    {
      var h := Sha256(bytes);
      if h in session.disk.space.refs {
        var size := ValidateBlobReference(session.disk.space, limits, h);
        r := if size.Ok? then Ok(false) else Err(size.error);
      } else {
        var admitted := AdmitBlob(|bytes|, |Digits(|bytes|)|);
        r := if admitted.Ok? then Ok(true) else Err(admitted.error);
      }
    }

    /** Stores a blob and this session's one reference to it. */
    method PutBlob(bytes: seq<byte>) returns (r: Result<Hash, Fault>)
      modifies this, session
      ensures nextId == old(nextId)
      ensures Good(limits, old(session.disk)) ==>
        BlobResult(session.disk, r) == PutBlobSpec(limits, old(session.disk), bytes, Digits(|bytes|))
    {
      if |bytes| > limits.maxBlobBytes {
        return Err(Quota("blob"));
      }
      var isNew := AdmitReference(bytes);
      if Good(limits, session.disk) {
        PutBlobCases(limits, session.disk, bytes, Digits(|bytes|));
      }
      if isNew.Err? {
        return Err(isNew.error);
      }
      r := StoreReferenced(bytes, isNew.value);
    }

    method StoreReferenced(bytes: seq<byte>, isNew: bool) returns (r: Result<Hash, Fault>)
      requires |bytes| <= limits.maxBlobBytes
      modifies this, session
      ensures nextId == old(nextId)
      ensures Honest(old(session.disk.space.blobs), bytes) ==> r == Ok(Sha256(bytes))
      ensures r.Ok? && isNew ==>
        session.disk == old(session.disk).(space := StoreBlob(old(session.disk.space), bytes, Digits(|bytes|)))
      ensures r.Ok? && !isNew ==> session.disk == old(session.disk).(
                space := old(session.disk.space).(blobs := old(session.disk.space.blobs)[Sha256(bytes) := bytes]))
    {
      var written := WriteBlob(bytes);
      if written.Err? {
        return Err(written.error);
      }
      var h := Sha256(bytes);
      if isNew {
        var space := session.disk.space;
        session.disk := session.disk.(space := space.(refs := space.refs[h := Digits(|bytes|)]));
        totalBytes := Min(totalBytes + |bytes|, U64_MAX);
      }
      r := Ok(h);
    }
  }

  method CheckLimits(limits: Limits) returns (ok: bool)
    ensures ok <==> ValidLimits(limits)
  {
    if limits.maxArtifactBytes == 0 || limits.maxBlobBytes == 0 || limits.maxSessionBytes == 0 {
      return false;
    }
    if limits.maxArtifactCount == 0 || limits.maxSessionMetadataBytes == 0 {
      return false;
    }
    if limits.maxBlobCount == 0 || limits.maxSessionBlobRefBytes == 0 {
      return false;
    }
    ok := limits.maxArtifactBytes <= limits.maxSessionBytes;
  }

  /** Opens a handle, whose next identifier is above all published ones. */
  method Open(session: Session, limits: Limits) returns (r: Result<Handle, Fault>)
    ensures r.Ok? <==> Openable(limits, session.disk)
    ensures r.Ok? ==> fresh(r.value) && r.value.session == session && r.value.limits == limits
    ensures r.Ok? ==> r.value.nextId == FreeId(session.disk.dir, 0) <= U64_MAX
    ensures r.Ok? ==> AllBelow(session.disk.dir.metas.Keys, r.value.nextId)
    ensures r.Ok? ==> r.value.totalBytes == ContentBytes(session.disk)
  {
    var valid := CheckLimits(limits);
    if !valid {
      return Err(InvalidLimits);
    }
    var usage := session.ScanArtifacts(limits);
    if usage.Err? {
      return Err(usage.error);
    }
    var maxId := usage.value.maxId;
    LargestBelow(session.disk.dir.metas.Keys, maxId, U64_MAX);
    var next := NextAfter(maxId);
    if next.Err? {
      return Err(next.error);
    }
    LargestBelow(session.disk.dir.metas.Keys, maxId, next.value);
    LargestUnique(session.disk.dir.metas.Keys, maxId);
    var blobs := session.ScanBlobs(limits);
    if blobs.Err? {
      return Err(blobs.error);
    }
    var total := usage.value.contentBytes + blobs.value.contentBytes;
    if total > limits.maxSessionBytes {
      return Err(Quota("session"));
    }
    var handle := new Handle(session, limits, next.value, total);
    r := Ok(handle);
  }
}
